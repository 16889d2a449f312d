/** The two functions of Go's `strings` package that the server applies to every
    line it receives: `strings.TrimSpace` and `strings.Split` with the one-space
    separator `" "`, together with `strings.Join(parts, " ")`, the inverse of that
    split. Strings are sequences of Unicode scalar values. */
module GoStrings {

  /** Go's `unicode.IsSpace`: the Latin-1 spaces '\t', '\n', '\v', '\f', '\r',
      ' ', U+0085 (NEL) and U+00A0 (NBSP), and above Latin-1 every code point
      with the Unicode White_Space property. */
  predicate IsSpace(c: char) {
    || c == '\t' || c == '\n' || c == '\U{000B}' || c == '\U{000C}' || c == '\r' || c == ' '
    || c == '\U{0085}' || c == '\U{00A0}'
    || c == '\U{1680}' || ('\U{2000}' <= c <= '\U{200A}')
    || c == '\U{2028}' || c == '\U{2029}' || c == '\U{202F}' || c == '\U{205F}' || c == '\U{3000}'
  }

  predicate AllSpace(s: string) {
    forall i | 0 <= i < |s| :: IsSpace(s[i])
  }

  /** Drops the leading white space of `s`. */
  function TrimLeft(s: string): (r: string)
    ensures |r| <= |s|
    ensures r == [] || !IsSpace(r[0])
  {
    if s != [] && IsSpace(s[0]) then TrimLeft(s[1..]) else s
  }

  /** Drops the trailing white space of `s`. */
  function TrimRight(s: string): (r: string)
    ensures |r| <= |s|
    ensures r == [] || !IsSpace(r[|r| - 1])
  {
    if s != [] && IsSpace(s[|s| - 1]) then TrimRight(s[..|s| - 1]) else s
  }

  /** `strings.TrimSpace`: `s` without its leading and trailing white space;
      the result neither starts nor ends with white space (the lemma
      TrimSpaceFrames says that what was removed is all white space). */
  function TrimSpace(s: string): (r: string)
    ensures |r| <= |s|
    ensures r == [] || (!IsSpace(r[0]) && !IsSpace(r[|r| - 1]))
  {
    TrimRightDropsSpace(TrimLeft(s));
    TrimRight(TrimLeft(s))
  }

  /** TrimLeft returns a suffix of `s`, and what it removes is white space. */
  lemma {:induction false} TrimLeftDropsSpace(s: string)
    ensures TrimLeft(s) == s[|s| - |TrimLeft(s)|..]
    ensures AllSpace(s[..|s| - |TrimLeft(s)|])
  {
    if s != [] && IsSpace(s[0]) {
      var r := TrimLeft(s[1..]);
      TrimLeftDropsSpace(s[1..]);
      assert s[..|s| - |r|] == [s[0]] + s[1..][..|s| - 1 - |r|];
    }
  }

  /** TrimRight returns a prefix of `s`, and what it removes is white space. */
  lemma {:induction false} TrimRightDropsSpace(s: string)
    ensures TrimRight(s) == s[..|TrimRight(s)|]
    ensures AllSpace(s[|TrimRight(s)|..])
  {
    if s != [] && IsSpace(s[|s| - 1]) {
      var r := TrimRight(s[..|s| - 1]);
      TrimRightDropsSpace(s[..|s| - 1]);
      assert s[|r|..] == s[..|s| - 1][|r|..] + [s[|s| - 1]];
    }
  }

  /** TrimSpace returns a slice of `s` framed by white space on both sides. */
  lemma TrimSpaceFrames(s: string)
    ensures exists i | 0 <= i <= |s| - |TrimSpace(s)| ::
      s[i..i + |TrimSpace(s)|] == TrimSpace(s) && AllSpace(s[..i]) && AllSpace(s[i + |TrimSpace(s)|..])
  {
    var t := TrimLeft(s);
    var r := TrimRight(t);
    var i := |s| - |t|;
    TrimLeftDropsSpace(s);
    TrimRightDropsSpace(t);
    assert s[i..i + |r|] == r;
    assert s[i + |r|..] == t[|r|..];
  }

  /** `strings.Join(parts, " ")`. */
  function Join(parts: seq<string>): (s: string)
  {
    if |parts| == 0 then ""
    else if |parts| == 1 then parts[0]
    else parts[0] + " " + Join(parts[1..])
  }

  /** `strings.Split(s, " ")`: cuts `s` at every single space, so two adjacent
      spaces give an empty part and the empty string gives `[""]`. */
  function Split(s: string): (parts: seq<string>)
    ensures |parts| >= 1
  {
    if s == [] then [""]
    else
      var rest := Split(s[1..]);
      if s[0] == ' ' then [""] + rest
      else [[s[0]] + rest[0]] + rest[1..]
  }

  /** The parts Split returns hold no space, and joining them back with single
      spaces gives the line that was cut. */
  lemma {:induction false} SplitParts(s: string)
    ensures forall i | 0 <= i < |Split(s)| :: ' ' !in Split(s)[i]
    ensures Join(Split(s)) == s
  {
    if s != [] {
      var rest := Split(s[1..]);
      SplitParts(s[1..]);
      if s[0] == ' ' {
        assert s == " " + s[1..];
        assert Split(s)[1..] == rest;
      } else {
        var parts := Split(s);
        assert parts[1..] == rest[1..];
        assert s == [s[0]] + s[1..];
        forall i | 1 <= i < |parts|
          ensures ' ' !in parts[i]
        {
          assert parts[i] == rest[i];
        }
      }
    }
  }

  /** Cutting the line and trimming: the tokens that the server dispatches on. */
  function Tokens(line: string): (parts: seq<string>)
    ensures |parts| >= 1
  {
    Split(TrimSpace(line))
  }

  /** Leading white space in front of a part that does not start with white
      space is exactly what TrimLeft removes. */
  lemma {:induction false} TrimLeftOf(a: string, t: string)
    requires AllSpace(a)
    requires t == [] || !IsSpace(t[0])
    ensures TrimLeft(a + t) == t
  {
    if a != [] {
      assert (a + t)[1..] == a[1..] + t;
      TrimLeftOf(a[1..], t);
    }
  }

  /** Trailing white space behind a part that does not end with white space is
      exactly what TrimRight removes. */
  lemma {:induction false} TrimRightOf(t: string, b: string)
    requires AllSpace(b)
    requires t == [] || !IsSpace(t[|t| - 1])
    ensures TrimRight(t + b) == t
  {
    if b != [] {
      assert (t + b)[..|t + b| - 1] == t + b[..|b| - 1];
      TrimRightOf(t, b[..|b| - 1]);
    }
  }

  /** TrimSpace is determined by its contract: a middle part that neither starts
      nor ends with white space, framed by white space, is what it returns. */
  lemma TrimSpaceOf(a: string, m: string, b: string)
    requires AllSpace(a) && AllSpace(b)
    requires m == [] || (!IsSpace(m[0]) && !IsSpace(m[|m| - 1]))
    ensures TrimSpace(a + m + b) == m
  {
    assert a + m + b == a + (m + b);
    if m == [] {
      assert AllSpace(a + b);
      TrimLeftOf(a + b, []);
      assert a + b + [] == a + b == a + m + b;
      assert TrimRight([]) == [];
    } else {
      TrimLeftOf(a, m + b);
      TrimRightOf(m, b);
    }
  }

  /** Trimming twice is trimming once. */
  lemma TrimSpaceIdempotent(s: string)
    ensures TrimSpace(TrimSpace(s)) == TrimSpace(s)
  {
    var r := TrimSpace(s);
    assert [] + r + [] == r;
    TrimSpaceOf([], r, []);
  }

  /** Index of the first space of `s`, or `|s|` when there is none. */
  function FirstSpace(s: string): (k: nat)
    ensures k <= |s|
  {
    if s == [] || s[0] == ' ' then 0 else 1 + FirstSpace(s[1..])
  }

  lemma {:induction false} FirstSpaceOf(a: string, t: string)
    requires ' ' !in a
    requires t == [] || t[0] == ' '
    ensures FirstSpace(a + t) == |a|
  {
    if a != [] {
      assert (a + t)[1..] == a[1..] + t;
      FirstSpaceOf(a[1..], t);
    }
  }

  /** In a join of space-free parts the first part ends at the first space, and
      it is the whole line exactly when there is a single part. */
  lemma FirstSpaceOfJoin(p: seq<string>)
    requires |p| >= 1
    requires forall i | 0 <= i < |p| :: ' ' !in p[i]
    ensures FirstSpace(Join(p)) == |p[0]|
    ensures |p| == 1 <==> |Join(p)| == |p[0]|
  {
    if |p| == 1 {
      assert p[0] + [] == p[0];
      FirstSpaceOf(p[0], []);
    } else {
      assert Join(p) == p[0] + (" " + Join(p[1..]));
      FirstSpaceOf(p[0], " " + Join(p[1..]));
    }
  }

  /** Joining space-free parts is injective. */
  lemma {:induction false} JoinInjective(p: seq<string>, q: seq<string>)
    requires |p| >= 1 && |q| >= 1
    requires forall i | 0 <= i < |p| :: ' ' !in p[i]
    requires forall i | 0 <= i < |q| :: ' ' !in q[i]
    requires Join(p) == Join(q)
    ensures p == q
  {
    var s := Join(p);
    FirstSpaceOfJoin(p);
    FirstSpaceOfJoin(q);
    assert p[0] == s[..|p[0]|] == q[0];
    if |p| > 1 {
      assert Join(p[1..]) == s[|p[0]| + 1..] == Join(q[1..]);
      JoinInjective(p[1..], q[1..]);
      assert p == [p[0]] + p[1..];
      assert q == [q[0]] + q[1..];
    }
  }

  /** Split undoes Join: a line made of space-free parts separated by single
      spaces is cut back into exactly those parts. */
  lemma SplitJoin(parts: seq<string>)
    requires |parts| >= 1
    requires forall i | 0 <= i < |parts| :: ' ' !in parts[i]
    ensures Split(Join(parts)) == parts
  {
    SplitParts(Join(parts));
    JoinInjective(Split(Join(parts)), parts);
  }
}
