/** The few Python string operations the capture scripts use on order codes,
    timestamps and captions: str.strip(), str.replace() with one-character
    arguments, sep.join(parts), and str.split(sep) as the inverse of join. */
module Text {

  /** Python's str.isspace() for one character: the characters str.strip()
      removes when called without arguments. */
  predicate IsSpace(c: char) {
    var n := c as int;
    n == 32 || 9 <= n <= 13 || 28 <= n <= 31 || n == 0x85 || n == 0xA0 ||
    n == 0x1680 || 0x2000 <= n <= 0x200A || n == 0x2028 || n == 0x2029 ||
    n == 0x202F || n == 0x205F || n == 0x3000
  }

  predicate AllSpace(s: string) {
    forall i :: 0 <= i < |s| ==> IsSpace(s[i])
  }

  /** Characters a key code in 32..126 can produce (chr(k) for printable ASCII). */
  predicate Printable(s: string) {
    forall i :: 0 <= i < |s| ==> 32 <= s[i] as int <= 126
  }

  /** s with its leading whitespace removed (str.lstrip()): a suffix of s
      that is empty or starts with a non-space. */
  function TrimLeft(s: string): (r: string)
    ensures |r| <= |s| && r == s[|s| - |r|..]
    ensures r == [] || !IsSpace(r[0])
  {
    if s != [] && IsSpace(s[0]) then TrimLeft(s[1..]) else s
  }

  /** What lstrip removes is all whitespace. */
  lemma {:induction false} TrimLeftDrops(s: string)
    ensures AllSpace(s[..|s| - |TrimLeft(s)|])
  {
    if s != [] && IsSpace(s[0]) {
      var r := TrimLeft(s[1..]);
      TrimLeftDrops(s[1..]);
      assert s[..|s| - |r|] == [s[0]] + s[1..][..|s| - 1 - |r|];
    }
  }

  /** s with its trailing whitespace removed (str.rstrip()): a prefix of s
      that is empty or ends with a non-space. */
  function TrimRight(s: string): (r: string)
    ensures |r| <= |s| && r == s[..|r|]
    ensures r == [] || !IsSpace(r[|r| - 1])
  {
    if s != [] && IsSpace(s[|s| - 1]) then TrimRight(s[..|s| - 1]) else s
  }

  /** What rstrip removes is all whitespace. */
  lemma {:induction false} TrimRightDrops(s: string)
    ensures AllSpace(s[|TrimRight(s)|..])
  {
    if s != [] && IsSpace(s[|s| - 1]) {
      var r := TrimRight(s[..|s| - 1]);
      TrimRightDrops(s[..|s| - 1]);
      assert s[|r|..] == s[..|s| - 1][|r|..] + [s[|s| - 1]];
    }
  }

  /** str.strip(): s without its leading and trailing whitespace. Leading
      whitespace is dropped one character at a time, then the rest is
      trimmed on the right. */
  function Strip(s: string): string
    decreases |s|
  {
    if s != [] && IsSpace(s[0]) then Strip(s[1..]) else TrimRight(s)
  }

  /** Strip is lstrip followed by rstrip. */
  lemma {:induction false} StripIsTrims(s: string)
    ensures Strip(s) == TrimRight(TrimLeft(s))
    decreases |s|
  {
    if s != [] && IsSpace(s[0]) {
      StripIsTrims(s[1..]);
    }
  }

  /** What str.strip() leaves is no longer than s and neither starts nor ends
      with whitespace. */
  lemma StripEnds(s: string)
    ensures var r := Strip(s);
            && |r| <= |s|
            && (r == [] || (!IsSpace(r[0]) && !IsSpace(r[|r| - 1])))
  {
    StripIsTrims(s);
  }

  /** Stripping only removes characters, so a printable code stays printable. */
  lemma StripPrintable(s: string)
    requires Printable(s)
    ensures Printable(Strip(s))
  {
    var t := TrimLeft(s);
    var r := TrimRight(t);
    assert Printable(r) by {
      forall i | 0 <= i < |r|
        ensures 32 <= r[i] as int <= 126
      {
        assert r[i] == s[|s| - |t| + i];
      }
    }
    StripIsTrims(s);
  }

  /** Stripping leaves nothing exactly when there was nothing but whitespace. */
  lemma StripEmpty(s: string)
    ensures Strip(s) == [] <==> AllSpace(s)
  {
    var t := TrimLeft(s);
    var r := TrimRight(t);
    assert r == [] <==> AllSpace(s) by {
      if r == [] {
        TrimLeftDrops(s);
        TrimRightDrops(t);
        assert s == s[..|s| - |t|] + t[0..];
      }
    }
    StripIsTrims(s);
  }

  /** Strip is determined by what it removes: whitespace runs on both sides
      around a middle that neither starts nor ends with whitespace. */
  lemma StripOf(a: string, m: string, b: string)
    requires AllSpace(a) && AllSpace(b)
    requires m == [] || (!IsSpace(m[0]) && !IsSpace(m[|m| - 1]))
    ensures Strip(a + m + b) == m
  {
    if m == [] {
      TrimsOfBlank(a, b);
    } else {
      TrimsOf(a, m, b);
    }
    StripIsTrims(a + m + b);
  }

  /** Two whitespace runs trim to nothing. */
  lemma TrimsOfBlank(a: string, b: string)
    requires AllSpace(a) && AllSpace(b)
    ensures TrimRight(TrimLeft(a + [] + b)) == []
  {
    assert a + [] + b == (a + b) + [];
    assert AllSpace(a + b) by {
      forall i | 0 <= i < |a + b|
        ensures IsSpace((a + b)[i])
      {
        if i < |a| { assert (a + b)[i] == a[i]; } else { assert (a + b)[i] == b[i - |a|]; }
      }
    }
    TrimLeftOf(a + b, []);
  }

  /** Whitespace runs around a middle that neither starts nor ends with
      whitespace trim to that middle. */
  lemma TrimsOf(a: string, m: string, b: string)
    requires AllSpace(a) && AllSpace(b)
    requires m != [] && !IsSpace(m[0]) && !IsSpace(m[|m| - 1])
    ensures TrimRight(TrimLeft(a + m + b)) == m
  {
    assert a + m + b == a + (m + b);
    TrimLeftOf(a, m + b);
    TrimRightOf(m, b);
  }

  lemma {:induction false} TrimLeftOf(a: string, t: string)
    requires AllSpace(a)
    requires t == [] || !IsSpace(t[0])
    ensures TrimLeft(a + t) == t
  {
    if a != [] {
      assert (a + t)[1..] == a[1..] + t;
      TrimLeftOf(a[1..], t);
    } else {
      assert a + t == t;
    }
  }

  lemma {:induction false} TrimRightOf(t: string, b: string)
    requires AllSpace(b)
    requires t == [] || !IsSpace(t[|t| - 1])
    ensures TrimRight(t + b) == t
  {
    if b != [] {
      assert (t + b)[..|t + b| - 1] == t + b[..|b| - 1];
      TrimRightOf(t, b[..|b| - 1]);
    } else {
      assert t + b == t;
    }
  }

  /** s.replace(from, to) for one-character arguments: every occurrence of
      from becomes to, and nothing else moves. */
  function ReplaceChar(s: string, from: char, to: char): (r: string)
    ensures |r| == |s|
    ensures forall i :: 0 <= i < |s| ==> r[i] == (if s[i] == from then to else s[i])
  {
    if s == [] then [] else [if s[0] == from then to else s[0]] + ReplaceChar(s[1..], from, to)
  }

  /** Which characters occur after a replacement: from is gone, to appears
      exactly when it was there already or from was. */
  lemma ReplaceCharMembers(s: string, from: char, to: char, c: char)
    requires from != to
    ensures c in ReplaceChar(s, from, to) <==> (c != from && c in s) || (c == to && from in s)
  {
    var r := ReplaceChar(s, from, to);
    if c in r {
      var i :| 0 <= i < |r| && r[i] == c;
      assert s[i] == from || s[i] == c;
    }
    if c != from && c in s {
      var i :| 0 <= i < |s| && s[i] == c;
      assert r[i] == c;
    }
    if c == to && from in s {
      var i :| 0 <= i < |s| && s[i] == from;
      assert r[i] == to;
    }
  }

  /** [sep].join(parts): the parts with one separator between neighbours. */
  function Join(parts: seq<string>, sep: char): string
  {
    if |parts| == 0 then ""
    else if |parts| == 1 then parts[0]
    else parts[0] + [sep] + Join(parts[1..], sep)
  }

  /** s.split(sep) for a one-character separator: the pieces between
      separators, always at least one (possibly empty) piece. */
  function Split(s: string, sep: char): (r: seq<string>)
    ensures |r| >= 1
  {
    if s == [] then [""]
    else
      var rest := Split(s[1..], sep);
      if s[0] == sep then [""] + rest
      else [[s[0]] + rest[0]] + rest[1..]
  }

  /** A piece without separators glues onto the first piece of what follows. */
  lemma {:induction false} SplitPrefix(a: string, rest: string, sep: char)
    requires sep !in a
    ensures Split(a + rest, sep) == [a + Split(rest, sep)[0]] + Split(rest, sep)[1..]
  {
    if a != [] {
      assert (a + rest)[1..] == a[1..] + rest;
      SplitPrefix(a[1..], rest, sep);
      assert [a[0]] + (a[1..] + Split(rest, sep)[0]) == a + Split(rest, sep)[0];
    } else {
      var r := Split(rest, sep);
      assert a + rest == rest && a + r[0] == r[0];
      assert r == [r[0]] + r[1..];
    }
  }

  /** Splitting a join on its separator gives the parts back, provided no
      part contains the separator. */
  lemma {:induction false} SplitJoin(parts: seq<string>, sep: char)
    requires |parts| >= 1
    requires forall i :: 0 <= i < |parts| ==> sep !in parts[i]
    ensures Split(Join(parts, sep), sep) == parts
  {
    if |parts| == 1 {
      SplitPrefix(parts[0], "", sep);
      assert parts[0] + "" == parts[0];
    } else {
      var tail := Join(parts[1..], sep);
      SplitJoin(parts[1..], sep);
      assert parts[0] + [sep] + tail == parts[0] + ([sep] + tail);
      SplitPrefix(parts[0], [sep] + tail, sep);
      assert ([sep] + tail)[1..] == tail;
      assert Split([sep] + tail, sep) == [""] + parts[1..];
      assert parts[0] + "" == parts[0];
      assert parts == [parts[0]] + parts[1..];
    }
  }
}
