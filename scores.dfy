/**
 * The score table (GameManager's highScores and displayedScores, a
 * Processing Table with a name and a score column), the characters of the
 * menu's name editor and the names that are cheat codes.
 */
module Scores {
  /** One row of the score table: (name, score). */
  type Row = (string, int)

  /** Highest score first. */
  predicate Sorted(t: seq<Row>)
  {
    forall i, j :: 0 <= i < j < |t| ==> t[i].1 >= t[j].1
  }

  /** The number of leading rows scoring at least s: where a score s goes below its equals. */
  function Rank(t: seq<Row>, s: int): (k: nat)
    ensures k <= |t|
    ensures forall i :: 0 <= i < k ==> t[i].1 >= s
    ensures k < |t| ==> t[k].1 < s
  {
    if t == [] || t[0].1 < s then 0 else 1 + Rank(t[1..], s)
  }

  /** The table with row inserted below every row that scores at least as much. */
  function InsertRow(t: seq<Row>, row: Row): (r: seq<Row>)
    ensures |r| == |t| + 1
  {
    var k := Rank(t, row.1);
    t[..k] + [row] + t[k..]
  }

  /** In a sorted table every row from Rank on scores below s. */
  lemma RankSplits(t: seq<Row>, s: int)
    requires Sorted(t)
    ensures forall i :: Rank(t, s) <= i < |t| ==> t[i].1 < s
  {
  }

  /** Inserting into a sorted table keeps it sorted. */
  lemma InsertKeepsSorted(t: seq<Row>, row: Row)
    requires Sorted(t)
    ensures Sorted(InsertRow(t, row))
  {
    var k := Rank(t, row.1);
    var r := InsertRow(t, row);
    RankSplits(t, row.1);
    forall i, j | 0 <= i < j < |r|
      ensures r[i].1 >= r[j].1
    {
      if j < k {
        assert r[i] == t[i] && r[j] == t[j];
      } else if j == k {
        assert r[j] == row;
      } else if i < k {
        assert r[i] == t[i] && r[j] == t[j - 1];
      } else if i == k {
        assert r[i] == row && r[j] == t[j - 1];
      } else {
        assert r[i] == t[i - 1] && r[j] == t[j - 1];
      }
    }
  }

  /** Inserting adds exactly the new row: the result is a permutation of the old rows plus it. */
  lemma InsertIsPermutation(t: seq<Row>, row: Row)
    ensures multiset(InsertRow(t, row)) == multiset(t) + multiset{row}
  {
    var k := Rank(t, row.1);
    assert t == t[..k] + t[k..];
  }

  /**
   * Where GameManager.saveScore's bubbling leaves a new row of score s:
   * starting from the end, it passes every row that scores strictly less.
   */
  function SinkPoint(t: seq<Row>, s: int): (k: nat)
    ensures k <= |t|
    ensures forall j :: k <= j < |t| ==> t[j].1 < s
    ensures k > 0 ==> t[k - 1].1 >= s
  {
    if t == [] || t[|t| - 1].1 >= s then |t| else SinkPoint(t[..|t| - 1], s)
  }

  /** GameManager.saveScore's table: the row appended, then bubbled up when its score is positive. */
  function SaveRow(t: seq<Row>, row: Row): (r: seq<Row>)
    ensures |r| == |t| + 1
  {
    if row.1 > 0 then
      var k := SinkPoint(t, row.1);
      t[..k] + [row] + t[k..]
    else t + [row]
  }

  /** SinkPoint is the only place with every row after it scoring below s and the one before it not. */
  lemma SinkPointUnique(t: seq<Row>, s: int, k: int)
    requires 0 <= k <= |t| && (k == 0 || t[k - 1].1 >= s)
    requires forall j :: k <= j < |t| ==> t[j].1 < s
    ensures SinkPoint(t, s) == k
  {
    var p := SinkPoint(t, s);
    if p < k {
      assert false;
    }
  }

  /** One swap of the bubbling moves the new row one place up. */
  lemma BubbleSwap(t: seq<Row>, row: Row, i: int)
    requires 0 <= i < |t|
    ensures (t[..i + 1] + [row] + t[i + 1..])[i := row][i + 1 := t[i]] == t[..i] + [row] + t[i..]
  {
    var a := (t[..i + 1] + [row] + t[i + 1..])[i := row][i + 1 := t[i]];
    var b := t[..i] + [row] + t[i..];
    assert |a| == |b|;
    forall j | 0 <= j < |a|
      ensures a[j] == b[j]
    {
      if j < i {
        assert a[j] == t[j] && b[j] == t[j];
      } else if j > i + 1 {
        assert a[j] == t[j - 1] && b[j] == t[j - 1];
      }
    }
  }

  /** Saving adds exactly the new row, whatever the table. */
  lemma SaveRowIsPermutation(t: seq<Row>, row: Row)
    ensures multiset(SaveRow(t, row)) == multiset(t) + multiset{row}
  {
    if row.1 > 0 {
      var k := SinkPoint(t, row.1);
      assert t == t[..k] + t[k..];
    }
  }

  /** On a sorted table, bubbling a positive score stops where InsertRow puts it. */
  lemma SaveRowInserts(t: seq<Row>, row: Row)
    requires Sorted(t) && row.1 > 0
    ensures SaveRow(t, row) == InsertRow(t, row)
  {
    var k := SinkPoint(t, row.1);
    var r := Rank(t, row.1);
    if k < |t| {
      assert t[k].1 < row.1;
    }
    if r < k {
      assert false;
    }
  }

  /** A sorted table stays sorted: a positive score bubbles into place, any other one is appended last. */
  lemma SaveRowKeepsSorted(t: seq<Row>, row: Row)
    requires Sorted(t) && (row.1 > 0 || t == [] || t[|t| - 1].1 >= row.1)
    ensures Sorted(SaveRow(t, row))
  {
    if row.1 > 0 {
      SaveRowInserts(t, row);
      InsertKeepsSorted(t, row);
    }
  }

  /** Row i is the first row with its name. */
  predicate FirstOfName(t: seq<Row>, i: int)
    requires 0 <= i < |t|
  {
    forall j :: 0 <= j < i ==> t[j].0 != t[i].0
  }

  /** getScoresNoDuplicates as a specification: of the first n rows, those that are the first with their name, in order. */
  function FirstRows(t: seq<Row>, n: int): (r: seq<Row>)
    requires 0 <= n <= |t|
    ensures |r| <= n
  {
    if n == 0 then []
    else if FirstOfName(t, n - 1) then FirstRows(t, n - 1) + [t[n - 1]]
    else FirstRows(t, n - 1)
  }

  /** Where kept row k comes from: a row of the table that is the first with its name. */
  lemma {:induction false} FirstRowsSource(t: seq<Row>, n: int, k: int) returns (i: int)
    requires 0 <= n <= |t| && 0 <= k < |FirstRows(t, n)|
    ensures 0 <= i < n && FirstOfName(t, i) && FirstRows(t, n)[k] == t[i]
  {
    var r := FirstRows(t, n - 1);
    if k == |r| {
      i := n - 1;
    } else {
      i := FirstRowsSource(t, n - 1, k);
    }
  }

  /** Every kept row is a row of the table that is the first with its name. */
  lemma FirstRowsFrom(t: seq<Row>, n: int)
    requires 0 <= n <= |t|
    ensures forall k :: 0 <= k < |FirstRows(t, n)| ==>
      exists i :: 0 <= i < n && FirstOfName(t, i) && FirstRows(t, n)[k] == t[i]
  {
    forall k | 0 <= k < |FirstRows(t, n)|
      ensures exists i :: 0 <= i < n && FirstOfName(t, i) && FirstRows(t, n)[k] == t[i]
    {
      var i := FirstRowsSource(t, n, k);
      assert 0 <= i < n && FirstOfName(t, i) && FirstRows(t, n)[k] == t[i];
    }
    assert forall k :: 0 <= k < |FirstRows(t, n)| ==>
      exists i :: 0 <= i < n && FirstOfName(t, i) && FirstRows(t, n)[k] == t[i];
  }

  /** No name appears twice. */
  predicate DistinctNames(t: seq<Row>)
  {
    forall i, j :: 0 <= i < j < |t| ==> t[i].0 != t[j].0
  }

  /** getScoresNoDuplicates never lists a name twice. */
  lemma {:induction false} FirstRowsDistinct(t: seq<Row>, n: int)
    requires 0 <= n <= |t|
    ensures DistinctNames(FirstRows(t, n))
  {
    if n > 0 {
      FirstRowsDistinct(t, n - 1);
      var r := FirstRows(t, n - 1);
      if FirstOfName(t, n - 1) {
        var r' := r + [t[n - 1]];
        forall i, j | 0 <= i < j < |r'|
          ensures r'[i].0 != r'[j].0
        {
          if j == |r| {
            var i' := FirstRowsSource(t, n - 1, i);
          } else {
            assert r'[i] == r[i] && r'[j] == r[j];
          }
        }
      }
    }
  }

  /** A row that is the first of its name is kept. */
  lemma {:induction false} FirstRowsKeeps(t: seq<Row>, n: int, i: int)
    requires 0 <= i < n <= |t| && FirstOfName(t, i)
    ensures t[i] in FirstRows(t, n)
  {
    var r := FirstRows(t, n - 1);
    if i < n - 1 {
      FirstRowsKeeps(t, n - 1, i);
      if FirstOfName(t, n - 1) {
        assert t[i] in r + [t[n - 1]];
      }
    }
  }

  /** Every name of the table is kept: each row that is the first of its name is listed. */
  lemma FirstRowsComplete(t: seq<Row>, n: int)
    requires 0 <= n <= |t|
    ensures forall i :: 0 <= i < n && FirstOfName(t, i) ==> t[i] in FirstRows(t, n)
  {
    forall i | 0 <= i < n && FirstOfName(t, i)
      ensures t[i] in FirstRows(t, n)
    {
      FirstRowsKeeps(t, n, i);
    }
  }

  /** In a sorted table the first row of a name holds that name's highest score. */
  lemma FirstOfNameIsBest(t: seq<Row>, i: int)
    requires Sorted(t) && 0 <= i < |t| && FirstOfName(t, i)
    ensures forall j :: 0 <= j < |t| && t[j].0 == t[i].0 ==> t[j].1 <= t[i].1
  {
  }

  /** The first name characters: a space, A to Z, 0 to 9, in the order the name editor steps through them. */
  function NameChar(i: int): (c: char)
    requires 0 <= i < 37
  {
    if i == 0 then ' '
    else if i <= 26 then ('A' as int + i - 1) as char
    else ('0' as int + i - 27) as char
  }

  /** A character the name editor can show. */
  predicate InNameAlphabet(c: char)
  {
    c == ' ' || 'A' <= c <= 'Z' || '0' <= c <= '9'
  }

  /**
   * MenuManager's A on the name: space to A, Z to 0, 9 to space, anything
   * else to the next 16-bit code, U+FFFF wrapping to U+0000 as Java's char
   * does. A step into the surrogates, which a Dafny char cannot hold, and a
   * character beyond U+FFFF, which is no Java char, keep the character.
   */
  function NextNameChar(c: char): (r: char)
    ensures c as int == 0xFFFF ==> r as int == 0
    ensures c != ' ' && c != 'Z' && c != '9' && c as int + 1 < 0xD800 ==> r as int == c as int + 1
  {
    if c == ' ' then 'A'
    else if c == 'Z' then '0'
    else if c == '9' then ' '
    else if c as int == 0xFFFF then 0 as char
    else if c as int + 1 < 0x1_0000 && !(0xD800 <= c as int + 1 < 0xE000) then (c as int + 1) as char
    else c
  }

  /** The alphabet is exactly the 37 name characters. */
  lemma NameAlphabetChars(c: char)
    ensures InNameAlphabet(c) <==> exists i :: 0 <= i < 37 && NameChar(i) == c
  {
    if InNameAlphabet(c) {
      var i := if c == ' ' then 0 else if 'A' <= c <= 'Z' then c as int - 'A' as int + 1 else c as int - '0' as int + 27;
      assert NameChar(i) == c;
    }
  }

  /** On the alphabet the step moves one place along the 37 characters, the last back to the first. */
  lemma NameCharCycle(i: int)
    requires 0 <= i < 37
    ensures NextNameChar(NameChar(i)) == NameChar((i + 1) % 37)
  {
  }

  /** n presses of A on the same character. */
  function StepNameChar(c: char, n: nat): char
  {
    if n == 0 then c else NextNameChar(StepNameChar(c, n - 1))
  }

  /** n presses move n places along the alphabet: 37 presses give the character back. */
  lemma {:induction false} StepNameCharCycle(i: int, n: nat)
    requires 0 <= i < 37
    ensures StepNameChar(NameChar(i), n) == NameChar((i + n) % 37)
  {
    if n > 0 {
      StepNameCharCycle(i, n - 1);
      NameCharCycle((i + n - 1) % 37);
      ModStep(i + n - 1);
    }
  }

  /** Any multiple of thirty-seven presses of A gives back a character of the alphabet. */
  lemma StepNameCharPeriod(c: char, n: nat)
    requires InNameAlphabet(c) && n % 37 == 0
    ensures StepNameChar(c, n) == c
  {
    NameAlphabetChars(c);
    var k :| 0 <= k < 37 && NameChar(k) == c;
    StepNameCharCycle(k, n);
    ModMultiple(k, n);
  }

  lemma ModMultiple(k: int, n: nat)
    requires 0 <= k < 37 && n % 37 == 0
    ensures (k + n) % 37 == k
  {
    assert k + n == 37 * (n / 37) + k;
  }

  lemma ModStep(a: nat)
    ensures (a % 37 + 1) % 37 == (a + 1) % 37
  {
  }

  /** Characters String.trim removes: codes up to the space. */
  predicate Blank(c: char)
  {
    c as int <= 32
  }

  /** The index of the first non-blank character of s at or after i (|s| if none). */
  function SkipLeading(s: string, i: nat): (k: nat)
    requires i <= |s|
    ensures i <= k <= |s|
    ensures forall j :: i <= j < k ==> Blank(s[j])
    ensures k < |s| ==> !Blank(s[k])
    decreases |s| - i
  {
    if i == |s| || !Blank(s[i]) then i else SkipLeading(s, i + 1)
  }

  /** The index just past the last non-blank character of s before j (lo if none from lo on). */
  function SkipTrailing(s: string, lo: nat, j: nat): (k: nat)
    requires lo <= j <= |s|
    ensures lo <= k <= j
    ensures forall i :: k <= i < j ==> Blank(s[i])
    ensures k > lo ==> !Blank(s[k - 1])
    decreases j
  {
    if j == lo || !Blank(s[j - 1]) then j else SkipTrailing(s, lo, j - 1)
  }

  /** String.trim: s without its leading and trailing blanks. */
  function Trim(s: string): (r: string)
    ensures |r| <= |s|
    ensures r == [] <==> forall i :: 0 <= i < |s| ==> Blank(s[i])
  {
    var lo := SkipLeading(s, 0);
    s[lo..SkipTrailing(s, lo, |s|)]
  }

  /**
   * Trim keeps a contiguous part of s that neither starts nor ends with a
   * blank, and drops only blanks around it.
   */
  lemma TrimSpec(s: string)
    ensures exists lo, hi ::
      && 0 <= lo <= hi <= |s| && Trim(s) == s[lo..hi]
      && (forall i :: 0 <= i < lo ==> Blank(s[i]))
      && (forall i :: hi <= i < |s| ==> Blank(s[i]))
    ensures Trim(s) != [] ==> !Blank(Trim(s)[0]) && !Blank(Trim(s)[|Trim(s)| - 1])
  {
    var lo := SkipLeading(s, 0);
    var hi := SkipTrailing(s, lo, |s|);
    assert Trim(s) == s[lo..hi];
    if lo == |s| {
      assert hi == lo;
    }
  }

  /** Trimming twice is trimming once. */
  lemma TrimIdempotent(s: string)
    ensures Trim(Trim(s)) == Trim(s)
  {
    TrimSpec(s);
    var t := Trim(s);
    if t != [] {
      assert SkipLeading(t, 0) == 0;
      assert SkipTrailing(t, 0, |t|) == |t|;
    }
  }

  /** What startGame's cheat names do: the start level, JEFF mode and always-intense after the switch. */
  datatype Cheats = Cheats(startLevel: int, jeff: bool, alwaysIntense: bool, resetTop: bool)

  /**
   * The switch at the top of GameManager.startGame: JEFF turns JEFF mode on
   * (and forgets the top-10 and top-2 marks), JOSEPH starts at level 15,
   * INTENSE is always intense, LOGAN and MARK are always intense from level
   * 16; any other name turns both modes off and starts at the chosen level.
   * The cheat names keep whatever was set before.
   */
  function CheatsFor(name: string, chosen: int, old_: Cheats): (c: Cheats)
    ensures c.startLevel in {chosen, old_.startLevel, 15, 16}
    ensures c.resetTop <==> name == "JEFF"
    ensures name != "JEFF" && name != "JOSEPH" ==> c.jeff == (old_.jeff && name in {"INTENSE", "LOGAN", "MARK"})
  {
    if name == "JEFF" then old_.(jeff := true, resetTop := true)
    else if name == "JOSEPH" then old_.(startLevel := 15, resetTop := false)
    else if name == "INTENSE" then old_.(alwaysIntense := true, resetTop := false)
    else if name == "LOGAN" || name == "MARK" then old_.(alwaysIntense := true, startLevel := 16, resetTop := false)
    else Cheats(chosen, false, false, false)
  }

  /** Only the five cheat names change anything but the plain reset to the chosen level. */
  lemma CheatsForPlainName(name: string, chosen: int, old_: Cheats)
    requires name !in {"JEFF", "JOSEPH", "INTENSE", "LOGAN", "MARK"}
    ensures CheatsFor(name, chosen, old_) == Cheats(chosen, false, false, false)
  {
  }

  /** The start level stays a level, 0 to 16, whatever the name. */
  lemma CheatsKeepLevel(name: string, chosen: int, old_: Cheats)
    requires 0 <= chosen <= 16 && 0 <= old_.startLevel <= 16
    ensures 0 <= CheatsFor(name, chosen, old_).startLevel <= 16
  {
  }
}
