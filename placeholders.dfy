/** How the store reads a query text that uses positional parameters: a `$`
    followed by decimal digits is the parameter of that number, every other
    character is text. Binding replaces parameter `$k` by the `k`-th value of
    the parameter array, which is what executing `db.query(text, params)` means. */
module Placeholders {
  import opened Common

  /** One element of a scanned query text: a character, a positional
      parameter, or (after binding) the value that stands in its place. */
  datatype Piece = Chr(c: char) | Param(n: nat) | Value(v: string)

  /** The longest prefix of `s` made of decimal digits. */
  function DigitRun(s: string): (d: string)
    ensures |d| <= |s| && AllDigits(d)
    decreases |s|
  {
    if s != "" && IsDigit(s[0]) then [s[0]] + DigitRun(s[1..]) else ""
  }

  /** The query text as a sequence of characters and positional parameters. */
  function Scan(s: string): seq<Piece>
    decreases |s|
  {
    if s == "" then []
    else if s[0] == '$' && |s| > 1 && IsDigit(s[1]) then
      var d := DigitRun(s[1..]);
      [Param(ParseNat(d))] + Scan(s[1 + |d|..])
    else [Chr(s[0])] + Scan(s[1..])
  }

  /** Plain text, character by character. */
  function Chars(s: string): seq<Piece> {
    seq(|s|, i requires 0 <= i < |s| => Chr(s[i]))
  }

  lemma CharsUncons(s: string)
    requires s != ""
    ensures Chars(s) == [Chr(s[0])] + Chars(s[1..])
  {
    assert Chars(s)[1..] == Chars(s[1..]);
  }

  /** The parameter numbers in order of appearance. */
  function ParamNumbers(ps: seq<Piece>): seq<nat>
    decreases |ps|
  {
    if ps == [] then []
    else (if ps[0].Param? then [ps[0].n] else []) + ParamNumbers(ps[1..])
  }

  /** `count` consecutive numbers from `first`: the parameter numbers of a text
      whose parameters are numbered in step with the array that binds them. */
  function Numbering(first: nat, count: nat): (r: seq<nat>)
    ensures |r| == count
    decreases count
  {
    if count == 0 then [] else [first] + Numbering(first + 1, count - 1)
  }

  lemma {:induction false} NumberingAppend(first: nat, m: nat, n: nat)
    ensures Numbering(first, m) + Numbering(first + m, n) == Numbering(first, m + n)
    decreases m
  {
    if m > 0 {
      NumberingAppend(first + 1, m - 1, n);
      assert Numbering(first, m) + Numbering(first + m, n)
          == [first] + (Numbering(first + 1, m - 1) + Numbering(first + 1 + (m - 1), n));
    }
  }

  function BindPiece(p: Piece, values: seq<string>): Piece {
    if p.Param? && 1 <= p.n <= |values| then Value(values[p.n - 1]) else p
  }

  /** Each parameter `$k` replaced by `values[k - 1]`; one with no value stays. */
  function Bind(ps: seq<Piece>, values: seq<string>): (r: seq<Piece>)
    ensures |r| == |ps|
    decreases |ps|
  {
    if ps == [] then [] else [BindPiece(ps[0], values)] + Bind(ps[1..], values)
  }

  predicate NoDollar(s: string) {
    forall i :: 0 <= i < |s| ==> s[i] != '$'
  }

  lemma NoDollarAppend(a: string, b: string)
    requires NoDollar(a) && NoDollar(b)
    ensures NoDollar(a + b)
  {
  }

  /** The text does not begin with a digit, so a parameter ending just before it ends there. */
  predicate NoLeadingDigit(s: string) {
    s == "" || !IsDigit(s[0])
  }

  lemma {:induction false} ParamNumbersAppend(a: seq<Piece>, b: seq<Piece>)
    ensures ParamNumbers(a + b) == ParamNumbers(a) + ParamNumbers(b)
    decreases |a|
  {
    if a == [] {
      assert a + b == b;
    } else {
      assert (a + b)[0] == a[0];
      assert (a + b)[1..] == a[1..] + b;
      ParamNumbersAppend(a[1..], b);
    }
  }

  lemma {:induction false} BindAppend(a: seq<Piece>, b: seq<Piece>, values: seq<string>)
    ensures Bind(a + b, values) == Bind(a, values) + Bind(b, values)
    decreases |a|
  {
    if a == [] {
      assert a + b == b;
    } else {
      assert (a + b)[0] == a[0];
      assert (a + b)[1..] == a[1..] + b;
      BindAppend(a[1..], b, values);
    }
  }

  /** Plain text has no parameters, and binding leaves it alone. */
  lemma {:induction false} CharsHaveNoParams(s: string, values: seq<string>)
    ensures ParamNumbers(Chars(s)) == []
    ensures Bind(Chars(s), values) == Chars(s)
    decreases |s|
  {
    if s != "" {
      CharsUncons(s);
      CharsHaveNoParams(s[1..], values);
    }
  }

  /** A digit run stops where the digits stop: text that does not start with a digit cannot extend it. */
  lemma {:induction false} DigitRunAppend(x: string, b: string)
    requires NoLeadingDigit(b)
    ensures DigitRun(x + b) == DigitRun(x)
    decreases |x|
  {
    if x != "" {
      assert (x + b)[0] == x[0];
      assert (x + b)[1..] == x[1..] + b;
      DigitRunAppend(x[1..], b);
    }
  }

  /** Scanning distributes over concatenation when the second part does not begin with a digit. */
  lemma {:induction false} ScanAppend(a: string, b: string)
    requires NoLeadingDigit(b)
    ensures Scan(a + b) == Scan(a) + Scan(b)
    decreases |a|, 1
  {
    if a == "" {
      assert a + b == b;
    } else if a[0] == '$' && |a| > 1 && IsDigit(a[1]) {
      ScanAppendParam(a, b);
    } else {
      ScanAppendChar(a, b);
    }
  }

  /** The step of `ScanAppend` where `a` begins with a parameter. */
  lemma {:induction false} ScanAppendParam(a: string, b: string)
    requires NoLeadingDigit(b)
    requires |a| > 1 && a[0] == '$' && IsDigit(a[1])
    ensures Scan(a + b) == Scan(a) + Scan(b)
    decreases |a|, 0
  {
    var s := a + b;
    var d := DigitRun(a[1..]);
    assert s[1..] == a[1..] + b;
    DigitRunAppend(a[1..], b);
    var rest := a[1 + |d|..];
    assert s[1 + |d|..] == rest + b;
    assert Scan(s) == [Param(ParseNat(d))] + Scan(rest + b);
    ScanAppend(rest, b);
    assert Scan(a) == [Param(ParseNat(d))] + Scan(rest);
  }

  /** The step of `ScanAppend` where `a` begins with a text character. */
  lemma {:induction false} ScanAppendChar(a: string, b: string)
    requires NoLeadingDigit(b)
    requires a != "" && !(a[0] == '$' && |a| > 1 && IsDigit(a[1]))
    ensures Scan(a + b) == Scan(a) + Scan(b)
    decreases |a|, 0
  {
    var s := a + b;
    assert s[1..] == a[1..] + b;
    assert s[0] == a[0];
    if a[0] == '$' && |a| == 1 && b != "" {
      assert !IsDigit(s[1]);
    }
    assert Scan(s) == [Chr(a[0])] + Scan(a[1..] + b);
    ScanAppend(a[1..], b);
  }

  /** Text without `$` scans to itself. */
  lemma {:induction false} ScanPlain(s: string)
    requires NoDollar(s)
    ensures Scan(s) == Chars(s)
    decreases |s|
  {
    if s != "" {
      CharsUncons(s);
      ScanPlain(s[1..]);
    }
  }

  /** A text made only of digits is its own digit run. */
  lemma {:induction false} DigitRunOfDigits(s: string)
    requires AllDigits(s)
    ensures DigitRun(s) == s
    decreases |s|
  {
    if s != "" {
      assert AllDigits(s[1..]) by {
        forall i | 0 <= i < |s| - 1 ensures IsDigit(s[1..][i]) {
          assert s[1..][i] == s[i + 1];
        }
      }
      DigitRunOfDigits(s[1..]);
    }
  }

  /** `$` and the decimal text of `n` scan to the single parameter `n`. */
  lemma ScanParam(n: nat)
    ensures Scan("$" + NatToString(n)) == [Param(n)]
  {
    var d := NatToString(n);
    var s := "$" + d;
    assert s[1..] == d;
    DigitRunOfDigits(d);
    ParseNatToString(n);
    assert s[1 + |d|..] == "";
  }

  /** Plain text followed by a parameter: the shape of every filter clause. */
  lemma ScanTextThenParam(text: string, n: nat)
    requires NoDollar(text)
    ensures Scan(text + ("$" + NatToString(n))) == Chars(text) + [Param(n)]
  {
    ScanAppend(text, "$" + NatToString(n));
    ScanPlain(text);
    ScanParam(n);
  }

  /** The parameters of plain text followed by one parameter. */
  lemma TextParamNumbers(text: string, n: nat)
    ensures ParamNumbers(Chars(text) + [Param(n)]) == [n]
  {
    ParamNumbersAppend(Chars(text), [Param(n)]);
    CharsHaveNoParams(text, []);
  }

  /** Binding plain text followed by parameter `n` puts the `n`-th value after the text. */
  lemma TextParamBind(text: string, n: nat, values: seq<string>)
    requires 1 <= n <= |values|
    ensures Bind(Chars(text) + [Param(n)], values) == Chars(text) + [Value(values[n - 1])]
  {
    BindAppend(Chars(text), [Param(n)], values);
    CharsHaveNoParams(text, values);
  }

  /** Text that does not start a parameter and cannot continue one: not
      empty, not starting with a digit, and free of `$`. */
  predicate PlainText(t: string) {
    t != "" && !IsDigit(t[0]) && NoDollar(t)
  }

  /** A piece of statement text that is followed by the next positional
      parameter, and the value the parameter array holds for it. */
  datatype Segment = Segment(text: string, value: string)

  predicate AllPlain(segs: seq<Segment>) {
    forall i :: 0 <= i < |segs| ==> PlainText(segs[i].text)
  }

  /** The segments in order, the `k`-th one followed by `$k`. */
  function Numbered(segs: seq<Segment>): string
    decreases |segs|
  {
    if segs == [] then ""
    else Numbered(segs[..|segs| - 1]) + (segs[|segs| - 1].text + ("$" + NatToString(|segs|)))
  }

  /** The parameter array that goes with them: the `k`-th value for `$k`. */
  function Values(segs: seq<Segment>): (vs: seq<string>)
    ensures |vs| == |segs|
    ensures forall i :: 0 <= i < |segs| ==> vs[i] == segs[i].value
  {
    seq(|segs|, i requires 0 <= i < |segs| => segs[i].value)
  }

  /** What the segments mean once bound: each text with its own value after it. */
  function Bound(segs: seq<Segment>): seq<Piece>
    decreases |segs|
  {
    if segs == [] then []
    else Bound(segs[..|segs| - 1]) + (Chars(segs[|segs| - 1].text) + [Value(segs[|segs| - 1].value)])
  }

  /** Appending a segment appends its text and the next parameter number. */
  lemma NumberedSnoc(segs: seq<Segment>, s: Segment)
    ensures Numbered(segs + [s]) == Numbered(segs) + (s.text + ("$" + NatToString(|segs| + 1)))
  {
    var all := segs + [s];
    assert all[..|all| - 1] == segs;
    assert all[|all| - 1] == s;
  }

  /** Appending a segment appends its value to the array. */
  lemma ValuesSnoc(segs: seq<Segment>, s: Segment)
    ensures Values(segs + [s]) == Values(segs) + [s.value]
  {
  }

  /** The last segment of text that precedes the segments, separated out. */
  lemma LastSegment(base: string, segs: seq<Segment>)
    requires segs != []
    ensures base + Numbered(segs)
         == (base + Numbered(segs[..|segs| - 1])) + (segs[|segs| - 1].text + ("$" + NatToString(|segs|)))
  {
    Assoc(base, Numbered(segs[..|segs| - 1]), segs[|segs| - 1].text + ("$" + NatToString(|segs|)));
  }

  /** Scanning text followed by one more segment scans the segment on its own. */
  lemma ScanSegment(head: string, t: string, k: nat)
    requires PlainText(t)
    ensures Scan(head + (t + ("$" + NatToString(k)))) == Scan(head) + (Chars(t) + [Param(k)])
  {
    assert (t + ("$" + NatToString(k)))[0] == t[0];
    ScanAppend(head, t + ("$" + NatToString(k)));
    ScanTextThenParam(t, k);
  }

  /** After plain text, the segments carry the parameters `$1`, `$2`, ... in
      order, as many as there are values. */
  lemma {:induction false} NumberedParams(base: string, segs: seq<Segment>)
    requires NoDollar(base) && AllPlain(segs)
    ensures ParamNumbers(Scan(base + Numbered(segs))) == Numbering(1, |segs|)
    decreases |segs|
  {
    if segs == [] {
      assert base + Numbered(segs) == base;
      ScanPlain(base);
      CharsHaveNoParams(base, []);
    } else {
      var init := segs[..|segs| - 1];
      assert AllPlain(init) by {
        forall i | 0 <= i < |init| ensures PlainText(init[i].text) {
          assert init[i] == segs[i];
        }
      }
      NumberedParams(base, init);
      NumberedParamsStep(base, segs);
    }
  }

  lemma NumberedParamsStep(base: string, segs: seq<Segment>)
    requires segs != [] && PlainText(segs[|segs| - 1].text)
    requires ParamNumbers(Scan(base + Numbered(segs[..|segs| - 1]))) == Numbering(1, |segs| - 1)
    ensures ParamNumbers(Scan(base + Numbered(segs))) == Numbering(1, |segs|)
  {
    var head := base + Numbered(segs[..|segs| - 1]);
    var t := segs[|segs| - 1].text;
    var k := |segs|;
    LastSegment(base, segs);
    ScanSegment(head, t, k);
    ParamNumbersAppend(Scan(head), Chars(t) + [Param(k)]);
    TextParamNumbers(t, k);
    NumberingAppend(1, k - 1, 1);
  }

  /** Binding with an array that starts with the segments' values puts each
      value right after its own segment's text. */
  lemma {:induction false} NumberedBinding(base: string, segs: seq<Segment>, vs: seq<string>)
    requires NoDollar(base) && AllPlain(segs)
    requires |segs| <= |vs| && forall i :: 0 <= i < |segs| ==> vs[i] == segs[i].value
    ensures Bind(Scan(base + Numbered(segs)), vs) == Chars(base) + Bound(segs)
    decreases |segs|
  {
    if segs == [] {
      assert base + Numbered(segs) == base;
      ScanPlain(base);
      CharsHaveNoParams(base, vs);
      assert Chars(base) + Bound(segs) == Chars(base);
    } else {
      var init := segs[..|segs| - 1];
      assert AllPlain(init) && forall i :: 0 <= i < |init| ==> vs[i] == init[i].value by {
        forall i | 0 <= i < |init| ensures PlainText(init[i].text) && vs[i] == init[i].value {
          assert init[i] == segs[i];
        }
      }
      NumberedBinding(base, init, vs);
      NumberedBindingStep(base, segs, vs);
    }
  }

  lemma NumberedBindingStep(base: string, segs: seq<Segment>, vs: seq<string>)
    requires segs != [] && PlainText(segs[|segs| - 1].text)
    requires |segs| <= |vs| && vs[|segs| - 1] == segs[|segs| - 1].value
    requires Bind(Scan(base + Numbered(segs[..|segs| - 1])), vs) == Chars(base) + Bound(segs[..|segs| - 1])
    ensures Bind(Scan(base + Numbered(segs)), vs) == Chars(base) + Bound(segs)
  {
    var init := segs[..|segs| - 1];
    var head := base + Numbered(init);
    var s := segs[|segs| - 1];
    LastSegment(base, segs);
    ScanSegment(head, s.text, |segs|);
    BindSegment(Scan(head), s.text, |segs|, vs);
    LastBound(segs);
    Assoc(Chars(base), Bound(init), Chars(s.text) + [Value(s.value)]);
  }

  lemma LastBound(segs: seq<Segment>)
    requires segs != []
    ensures Bound(segs)
         == Bound(segs[..|segs| - 1]) + (Chars(segs[|segs| - 1].text) + [Value(segs[|segs| - 1].value)])
  {
  }

  /** Binding pieces followed by a segment's text and parameter `k` puts the `k`-th value after the text. */
  lemma BindSegment(ps: seq<Piece>, t: string, k: nat, vs: seq<string>)
    requires 1 <= k <= |vs|
    ensures Bind(ps + (Chars(t) + [Param(k)]), vs) == Bind(ps, vs) + (Chars(t) + [Value(vs[k - 1])])
  {
    BindAppend(ps, Chars(t) + [Param(k)], vs);
    TextParamBind(t, k, vs);
  }

  /** The text depends only on the segments' texts, never on their values. */
  lemma {:induction false} NumberedIgnoresValues(a: seq<Segment>, b: seq<Segment>)
    requires |a| == |b| && forall i :: 0 <= i < |a| ==> a[i].text == b[i].text
    ensures Numbered(a) == Numbered(b)
    decreases |a|
  {
    if a != [] {
      var n := |a| - 1;
      assert forall i :: 0 <= i < n ==> a[..n][i] == a[i] && b[..n][i] == b[i];
      NumberedIgnoresValues(a[..n], b[..n]);
    }
  }
}
