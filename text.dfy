/** The string operations the pages use: `toLowerCase`, `trim`, `includes`,
    `split(' ')` and the template join `${a} ${b}`. */
module Text {

  /** `toLowerCase` on one character, for the Latin and Cyrillic capitals
      (the scripts of the menu and the floor plan); other characters are kept. */
  function LowerChar(c: char): (r: char)
    ensures r == c || (c as int < r as int && r as int <= c as int + 80)
  {
    var n := c as int;
    if 'A' as int <= n <= 'Z' as int then (n + 32) as char
    else if 0x410 <= n <= 0x42F then (n + 32) as char
    else if 0x400 <= n <= 0x40F then (n + 80) as char
    else c
  }

  /** `s.toLowerCase()`. */
  function Lower(s: string): (r: string)
    ensures |r| == |s|
    ensures forall i :: 0 <= i < |s| ==> r[i] == LowerChar(s[i])
  {
    seq(|s|, i requires 0 <= i < |s| => LowerChar(s[i]))
  }

  /** Lower-casing is idempotent, so comparing lower-cased texts is stable. */
  lemma {:induction false} LowerIdempotent(s: string)
    ensures Lower(Lower(s)) == Lower(s)
  {
    forall i | 0 <= i < |s|
      ensures LowerChar(LowerChar(s[i])) == LowerChar(s[i])
    {
      var n := s[i] as int;
      if 0x400 <= n <= 0x40F {
        assert LowerChar(s[i]) as int == n + 80;
      }
    }
  }

  /** The characters `String.prototype.trim` removes: white space and line terminators. */
  predicate IsWhiteSpace(c: char)
  {
    c as int in WhiteSpaceCodes
  }

  const WhiteSpaceCodes: set<int> := {
    0x09, 0x0A, 0x0B, 0x0C, 0x0D, 0x20, 0xA0, 0x1680,
    0x2000, 0x2001, 0x2002, 0x2003, 0x2004, 0x2005, 0x2006, 0x2007, 0x2008, 0x2009, 0x200A,
    0x2028, 0x2029, 0x202F, 0x205F, 0x3000, 0xFEFF }

  /** `s.includes(t)` at position `i`. */
  predicate OccursAt(s: string, t: string, i: int)
  {
    0 <= i && i + |t| <= |s| && s[i..i + |t|] == t
  }

  /** `s.includes(t)`: `t` occurs in `s` at some position. */
  function Contains(s: string, t: string): (b: bool)
    ensures b <==> exists i :: OccursAt(s, t, i)
  {
    if |s| < |t| then false
    else if s[..|t|] == t then
      assert OccursAt(s, t, 0);
      true
    else
      ContainsShift(s, t);
      Contains(s[1..], t)
  }

  /** An occurrence past the first position is an occurrence in the tail. */
  lemma {:induction false} ContainsShift(s: string, t: string)
    requires |t| <= |s| && s != [] && s[..|t|] != t
    ensures (exists i :: OccursAt(s, t, i)) <==> (exists i :: OccursAt(s[1..], t, i))
  {
    if exists i :: OccursAt(s, t, i) {
      var i :| OccursAt(s, t, i);
      assert OccursAt(s[1..], t, i - 1);
    }
    if exists i :: OccursAt(s[1..], t, i) {
      var i :| OccursAt(s[1..], t, i);
      assert s[1..][i..i + |t|] == s[i + 1..i + 1 + |t|];
      assert OccursAt(s, t, i + 1);
    }
  }

  /** `s.trim()`: `s` without its leading and trailing white space. */
  function Trim(s: string): (r: string)
    ensures |r| <= |s|
    ensures r != [] ==> !IsWhiteSpace(r[0]) && !IsWhiteSpace(r[|r| - 1])
    ensures r == [] <==> forall k :: 0 <= k < |s| ==> IsWhiteSpace(s[k])
  {
    if s != [] && IsWhiteSpace(s[0]) then
      assert forall k :: 1 <= k < |s| ==> s[k] == s[1..][k - 1];
      Trim(s[1..])
    else if s != [] && IsWhiteSpace(s[|s| - 1]) then
      assert forall k :: 0 <= k < |s| - 1 ==> s[k] == s[..|s| - 1][k];
      Trim(s[..|s| - 1])
    else
      s
  }

  /** Lower-casing neither creates nor removes white space. */
  lemma {:induction false} LowerKeepsWhiteSpace(c: char)
    ensures IsWhiteSpace(LowerChar(c)) == IsWhiteSpace(c)
  {
  }

  /** Trimming and lower-casing commute. */
  lemma {:induction false} TrimLower(s: string)
    ensures Trim(Lower(s)) == Lower(Trim(s))
  {
    var l := Lower(s);
    if s != [] && IsWhiteSpace(s[0]) {
      LowerKeepsWhiteSpace(s[0]);
      assert l[1..] == Lower(s[1..]);
      TrimLower(s[1..]);
    } else if s != [] && IsWhiteSpace(s[|s| - 1]) {
      LowerKeepsWhiteSpace(s[0]);
      LowerKeepsWhiteSpace(s[|s| - 1]);
      assert l[..|l| - 1] == Lower(s[..|s| - 1]);
      TrimLower(s[..|s| - 1]);
    } else if s != [] {
      LowerKeepsWhiteSpace(s[0]);
      LowerKeepsWhiteSpace(s[|s| - 1]);
    }
  }

  /** The empty text occurs in every text. */
  lemma {:induction false} ContainsEmpty(s: string)
    ensures Contains(s, "")
  {
    assert OccursAt(s, "", 0);
  }

  /** The template `${parts[0]}<sep>${parts[1]}...`. */
  function Join(parts: seq<string>, sep: char): string
  {
    if |parts| == 0 then ""
    else if |parts| == 1 then parts[0]
    else parts[0] + [sep] + Join(parts[1..], sep)
  }

  /** `s.split(sep)` for a one-character separator: the maximal pieces between separators. */
  function Split(s: string, sep: char): (parts: seq<string>)
    ensures |parts| >= 1
    ensures forall i :: 0 <= i < |parts| ==> sep !in parts[i]
    ensures Join(parts, sep) == s
  {
    if s == [] then [""]
    else
      var rest := Split(s[1..], sep);
      if s[0] == sep then
        assert [sep] + Join(rest, sep) == s;
        [""] + rest
      else
        var parts := [[s[0]] + rest[0]] + rest[1..];
        assert parts[1..] == rest[1..];
        parts
  }

  /** Splitting undoes joining when no piece contains the separator. */
  lemma {:induction false} SplitJoin(parts: seq<string>, sep: char)
    requires |parts| >= 1
    requires forall i :: 0 <= i < |parts| ==> sep !in parts[i]
    ensures Split(Join(parts, sep), sep) == parts
  {
    if |parts| == 1 {
      SplitPiece(parts[0], sep);
    } else {
      SplitJoin(parts[1..], sep);
      SplitThenSeparator(parts[0], sep, Join(parts[1..], sep));
    }
  }

  lemma {:induction false} SplitPiece(s: string, sep: char)
    requires sep !in s
    ensures Split(s, sep) == [s]
  {
    if s != [] {
      SplitPiece(s[1..], sep);
    }
  }

  lemma {:induction false} SplitThenSeparator(a: string, sep: char, rest: string)
    requires sep !in a
    ensures Split(a + [sep] + rest, sep) == [a] + Split(rest, sep)
  {
    if a == [] {
      assert a + [sep] + rest == [sep] + rest;
      assert ([sep] + rest)[1..] == rest;
    } else {
      assert (a + [sep] + rest)[1..] == a[1..] + [sep] + rest;
      SplitThenSeparator(a[1..], sep, rest);
      assert [a[0]] + a[1..] == a;
    }
  }

  /** The reservation form's `${date} ${time}` is split back into its two halves. */
  lemma {:induction false} JoinedDateTimeSplits(date: string, time: string)
    requires ' ' !in date && ' ' !in time
    ensures Split(date + " " + time, ' ') == [date, time]
  {
    assert Join([date, time], ' ') == date + " " + time;
    SplitJoin([date, time], ' ');
  }
}
