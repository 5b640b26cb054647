/** Canonical text is a complete invariant: equal texts, equal values, and the other way round. */
module JcsUnique {
  import opened Jcs

  // ---- Quoted strings decode uniquely ----

  function HexValue(c: char): int {
    if '0' <= c <= '9' then c as int - '0' as int else c as int - 'a' as int + 10
  }

  function Unescape(c: char): int {
    if c == 'b' then 0x08 else if c == 't' then 0x09 else if c == 'n' then 0x0A
    else if c == 'f' then 0x0C else if c == 'r' then 0x0D else c as int
  }

  /** Reads one code point off the front of an escaped text: the code point and how many characters it took. */
  function DecodeOne(t: string): (int, nat)
    requires t != ""
  {
    if t[0] != '\\' then (t[0] as int, 1)
    else if |t| < 2 then (0, 0)
    else if t[1] == 'u' then (if |t| < 6 then (0, 0) else (HexValue(t[4]) * 16 + HexValue(t[5]), 6))
    else (Unescape(t[1]), 2)
  }

  lemma DecodeEscape(c: Codepoint, u: string)
    requires !Surrogate(c)
    ensures Escape(c) != "" && Escape(c)[0] != '"' && DecodeOne(Escape(c) + u) == (c, |Escape(c)|)
  {
    var e := Escape(c);
    assert (e + u)[0] == e[0];
    if |e| == 2 {
      assert (e + u)[1] == e[1];
    } else if |e| == 6 {
      assert (e + u)[1] == e[1] && (e + u)[4] == e[4] && (e + u)[5] == e[5];
      HexRoundTrip(c / 16);
      HexRoundTrip(c % 16);
    }
  }

  lemma HexRoundTrip(d: int)
    requires 0 <= d < 16
    ensures HexValue(HexDigit(d)) == d
  {
  }

  lemma EscapeSplits(c: Codepoint, d: Codepoint, u: string, v: string)
    requires !Surrogate(c) && !Surrogate(d) && Escape(c) + u == Escape(d) + v
    ensures c == d && u == v
  {
    hide Escape, DecodeOne;
    DecodeEscape(c, u);
    DecodeEscape(d, v);
    assert u == (Escape(c) + u)[|Escape(c)|..];
    assert v == (Escape(d) + v)[|Escape(d)|..];
  }

  lemma UnfoldEscapes(x: PyString)
    requires Unicode(x)
    ensures if x == [] then Escapes(x) == ""
            else Unicode(x[1..]) && !Surrogate(x[0]) && Escapes(x) == Escape(x[0]) + Escapes(x[1..])
  {
  }

  lemma FirstOfEscapes(x: PyString, s: string)
    requires Unicode(x) && x != []
    ensures var t := Escapes(x) + s; t != "" && t[0] != '"'
  {
    hide Escape, Escapes, DecodeOne;
    UnfoldEscapes(x);
    DecodeEscape(x[0], "");
  }

  lemma {:induction false} EscapesSplit(x: PyString, y: PyString, s: string, t: string)
    requires Unicode(x) && Unicode(y) && Escapes(x) + ("\"" + s) == Escapes(y) + ("\"" + t)
    ensures x == y && s == t
    decreases |x|
  {
    hide Escape, Escapes;
    UnfoldEscapes(x);
    UnfoldEscapes(y);
    var q, r := "\"" + s, "\"" + t;
    assert q[0] == '"' && r[0] == '"';
    if x == [] {
      assert "" + q == q;
      if y != [] { FirstOfEscapes(y, r); assert false; }
      assert "" + r == r && q[1..] == s && r[1..] == t;
    } else if y == [] {
      assert "" + r == r;
      FirstOfEscapes(x, q);
      assert false;
    } else {
      assert Escapes(x) + q == Escape(x[0]) + (Escapes(x[1..]) + q);
      assert Escapes(y) + r == Escape(y[0]) + (Escapes(y[1..]) + r);
      EscapeSplits(x[0], y[0], Escapes(x[1..]) + q, Escapes(y[1..]) + r);
      EscapesSplit(x[1..], y[1..], s, t);
      assert x == [x[0]] + x[1..] && y == [y[0]] + y[1..];
    }
  }

  lemma QuotedSplit(x: PyString, y: PyString, s: string, t: string)
    requires Unicode(x) && Unicode(y) && Quoted(x) + s == Quoted(y) + t
    ensures x == y && s == t
  {
    hide Escapes;
    assert Quoted(x) + s == "\"" + (Escapes(x) + ("\"" + s));
    assert Quoted(y) + t == "\"" + (Escapes(y) + ("\"" + t));
    assert (Quoted(x) + s)[1..] == Escapes(x) + ("\"" + s);
    assert (Quoted(y) + t)[1..] == Escapes(y) + ("\"" + t);
    EscapesSplit(x, y, s, t);
  }

  // ---- Integers decode uniquely ----

  predicate IsDigit(c: char) {
    '0' <= c <= '9'
  }

  lemma {:induction false} DigitsAreDigits(n: nat)
    ensures Digits(n) != "" && forall k :: 0 <= k < |Digits(n)| ==> IsDigit(Digits(n)[k])
  {
    if n >= 10 { DigitsAreDigits(n / 10); }
  }

  lemma {:induction false} DigitsInjective(m: nat, n: nat)
    requires Digits(m) == Digits(n)
    ensures m == n
    decreases m
  {
    var x, y := Digits(m), Digits(n);
    assert x[|x| - 1] == y[|y| - 1];
    if m >= 10 { DigitsAreDigits(m / 10); }
    if n >= 10 { DigitsAreDigits(n / 10); }
    if m >= 10 && n >= 10 {
      assert Digits(m / 10) == x[..|x| - 1] == y[..|y| - 1] == Digits(n / 10);
      DigitsInjective(m / 10, n / 10);
    }
  }

  /** What may stand after a value. */
  predicate Follows(s: string) {
    s == "" || s[0] == ',' || s[0] == ']' || s[0] == '}'
  }

  function LeadingDigits(w: string): nat {
    if w == "" || !IsDigit(w[0]) then 0 else 1 + LeadingDigits(w[1..])
  }

  lemma {:induction false} LeadingDigitsOf(x: string, s: string)
    requires (s == "" || !IsDigit(s[0])) && forall k :: 0 <= k < |x| ==> IsDigit(x[k])
    ensures LeadingDigits(x + s) == |x|
    decreases |x|
  {
    if x == "" {
      assert x + s == s;
    } else {
      LeadingDigitsOf(x[1..], s);
      assert (x + s)[1..] == x[1..] + s;
    }
  }

  lemma DigitsSplit(m: nat, n: nat, s: string, t: string)
    requires Follows(s) && Follows(t) && Digits(m) + s == Digits(n) + t
    ensures m == n && s == t
  {
    hide Digits, LeadingDigits;
    DigitsAreDigits(m);
    DigitsAreDigits(n);
    var x, y := Digits(m), Digits(n);
    LeadingDigitsOf(x, s);
    LeadingDigitsOf(y, t);
    var w := x + s;
    assert w[..|x|] == x && w[|x|..] == s;
    assert w[..|y|] == y && w[|y|..] == t;
    DigitsInjective(m, n);
  }

  lemma IntTextSign(n: int)
    ensures IntText(n) != "" && (IntText(n)[0] == '-' <==> n < 0)
    ensures n < 0 ==> IntText(n)[1..] == Digits(-n)
    ensures n >= 0 ==> IntText(n) == Digits(n) && IsDigit(IntText(n)[0])
  {
    hide Digits;
    if n >= 0 { DigitsAreDigits(n); }
  }

  lemma IntSplit(m: int, n: int, s: string, t: string)
    requires Follows(s) && Follows(t) && IntText(m) + s == IntText(n) + t
    ensures m == n && s == t
  {
    hide IntText, Digits, Follows;
    IntTextSign(m);
    IntTextSign(n);
    assert (IntText(m) + s)[0] == IntText(m)[0] && (IntText(n) + t)[0] == IntText(n)[0];
    if m < 0 {
      assert (IntText(m) + s)[1..] == Digits(-m) + s;
      assert (IntText(n) + t)[1..] == Digits(-n) + t;
      DigitsSplit(-m, -n, s, t);
    } else {
      DigitsSplit(m, n, s, t);
    }
  }

  // ---- Lists of texts decode uniquely when their items do ----

  ghost predicate Separable(x: string, y: string) {
    forall s, t :: Follows(s) && Follows(t) && x + s == y + t ==> x == y
  }

  predicate StartsValue(x: string) {
    x != "" && x[0] != ',' && x[0] != ']' && x[0] != '}'
  }

  /** What stands after the first text of a list. */
  function AfterFirst(xs: seq<string>, close: char, s: string): string
    requires xs != []
  {
    if |xs| == 1 then [close] + s else "," + (Join(xs[1..]) + ([close] + s))
  }

  lemma {:induction false} UnfoldJoin(xs: seq<string>, close: char, s: string)
    requires xs != []
    ensures Join(xs) + ([close] + s) == xs[0] + AfterFirst(xs, close, s)
    ensures close == ']' || close == '}' ==> Follows(AfterFirst(xs, close, s))
  {
    hide Join;
    if |xs| == 1 {
      JoinOne(xs);
      assert [close] + s != "" && ([close] + s)[0] == close;
    } else {
      JoinMore(xs);
      var rest := Join(xs[1..]) + ([close] + s);
      assert (xs[0] + "," + Join(xs[1..])) + ([close] + s) == xs[0] + ("," + rest);
      assert ("," + rest)[0] == ',';
    }
  }

  lemma JoinOne(xs: seq<string>)
    requires |xs| == 1
    ensures Join(xs) == xs[0]
  {
  }

  lemma JoinMore(xs: seq<string>)
    requires |xs| > 1
    ensures Join(xs) == xs[0] + "," + Join(xs[1..])
  {
  }

  lemma {:induction false} JoinSplits(xs: seq<string>, ys: seq<string>, close: char, s: string, t: string)
    requires close == ']' || close == '}'
    requires forall i, j :: 0 <= i < |xs| && 0 <= j < |ys| ==> Separable(xs[i], ys[j])
    requires (forall i :: 0 <= i < |xs| ==> StartsValue(xs[i])) && (forall j :: 0 <= j < |ys| ==> StartsValue(ys[j]))
    requires Join(xs) + ([close] + s) == Join(ys) + ([close] + t)
    ensures xs == ys && s == t
    decreases |xs|
  {
    hide Separable, Follows, Join, AfterFirst;
    var w := Join(xs) + ([close] + s);
    if xs == [] || ys == [] {
      JoinSplitsEmpty(xs, ys, close, s, t);
    } else {
      UnfoldJoin(xs, close, s);
      UnfoldJoin(ys, close, t);
      var u, v := AfterFirst(xs, close, s), AfterFirst(ys, close, t);
      SeparateOne(xs[0], ys[0], u, v);
      AfterFirstSplits(xs, ys, close, s, t);
      if |xs| == 1 {
        assert xs == [xs[0]] && ys == [ys[0]];
      } else {
        JoinSplits(xs[1..], ys[1..], close, s, t);
        assert xs == [xs[0]] + xs[1..] && ys == [ys[0]] + ys[1..];
      }
    }
  }

  lemma JoinSplitsEmpty(xs: seq<string>, ys: seq<string>, close: char, s: string, t: string)
    requires close == ']' || close == '}'
    requires (forall i :: 0 <= i < |xs| ==> StartsValue(xs[i])) && (forall j :: 0 <= j < |ys| ==> StartsValue(ys[j]))
    requires Join(xs) + ([close] + s) == Join(ys) + ([close] + t) && (xs == [] || ys == [])
    ensures xs == ys && s == t
  {
    hide Join, StartsValue;
    FirstOfJoin(xs, close, s);
    FirstOfJoin(ys, close, t);
    assert ([close] + s)[1..] == s && ([close] + t)[1..] == t;
  }

  lemma FirstOfJoin(xs: seq<string>, close: char, s: string)
    requires close == ']' || close == '}'
    requires forall i :: 0 <= i < |xs| ==> StartsValue(xs[i])
    ensures var w := Join(xs) + ([close] + s); w != "" && (xs == [] <==> w[0] == close) && (xs == [] ==> w == [close] + s)
  {
    hide Join, AfterFirst;
    JoinNothing();
    var w := Join(xs) + ([close] + s);
    if xs == [] {
      assert w == [close] + s;
    } else {
      UnfoldJoin(xs, close, s);
      assert w[0] == xs[0][0];
    }
  }

  lemma JoinNothing()
    ensures Join([]) == ""
  {
  }

  lemma SeparateOne(x: string, y: string, u: string, v: string)
    requires Separable(x, y) && Follows(u) && Follows(v) && x + u == y + v
    ensures x == y && u == v
  {
    assert (x + u)[|x|..] == u && (y + v)[|y|..] == v;
  }

  lemma AfterFirstSplits(xs: seq<string>, ys: seq<string>, close: char, s: string, t: string)
    requires close != ',' && xs != [] && ys != [] && AfterFirst(xs, close, s) == AfterFirst(ys, close, t)
    ensures |xs| == 1 <==> |ys| == 1
    ensures |xs| == 1 ==> s == t
    ensures |xs| > 1 ==> Join(xs[1..]) + ([close] + s) == Join(ys[1..]) + ([close] + t)
  {
    hide Join;
    var u := AfterFirst(xs, close, s);
    assert u[0] == if |xs| == 1 then close else ',';
    assert u[0] == if |ys| == 1 then close else ',';
    if |xs| == 1 {
      assert u[1..] == s == t;
    } else {
      assert u[1..] == Join(xs[1..]) + ([close] + s);
      assert u[1..] == Join(ys[1..]) + ([close] + t);
    }
  }

  // ---- UTF-16 order ----

  lemma {:induction false} LessTransitive(a: seq<int>, b: seq<int>, c: seq<int>)
    requires Less(a, b) && Less(b, c)
    ensures Less(a, c)
    decreases |a|
  {
    if a != [] && a[0] == b[0] && b[0] == c[0] { LessTransitive(a[1..], b[1..], c[1..]); }
  }

  lemma {:induction false} LessTotal(a: seq<int>, b: seq<int>)
    ensures a == b || Less(a, b) || Less(b, a)
    ensures !(Less(a, b) && Less(b, a)) && !Less(a, a)
    decreases |a|
  {
    if a != [] {
      if b != [] && a[0] == b[0] {
        LessTotal(a[1..], b[1..]);
        assert a == [a[0]] + a[1..] && b == [b[0]] + b[1..];
      }
      LessTotal(a[1..], a[1..]);
    }
  }

  lemma Utf16Splits(c: Codepoint, d: Codepoint, u: seq<int>, v: seq<int>)
    requires !Surrogate(c) && !Surrogate(d) && Utf16(c) + u == Utf16(d) + v
    ensures c == d && u == v
  {
    var w := Utf16(c) + u;
    assert w[0] == Utf16(c)[0] == Utf16(d)[0] && w[1] == Utf16(c)[1] == Utf16(d)[1];
    assert |Utf16(c)| == 4 <==> 0xD8 <= w[0] <= 0xDB;
    assert |Utf16(d)| == 4 <==> 0xD8 <= w[0] <= 0xDB;
    if |Utf16(c)| == 4 {
      assert w[2] == Utf16(c)[2] == Utf16(d)[2] && w[3] == Utf16(c)[3] == Utf16(d)[3];
    }
    assert w[|Utf16(c)|..] == u && w[|Utf16(d)|..] == v;
  }

  lemma {:induction false} SortKeyInjective(x: PyString, y: PyString)
    requires Unicode(x) && Unicode(y) && SortKey(x) == SortKey(y)
    ensures x == y
    decreases |x|
  {
    hide Utf16;
    if x != [] { Utf16NotEmpty(x[0]); }
    if y != [] { Utf16NotEmpty(y[0]); }
    if x != [] && y != [] {
      Utf16Splits(x[0], y[0], SortKey(x[1..]), SortKey(y[1..]));
      SortKeyInjective(x[1..], y[1..]);
      assert x == [x[0]] + x[1..] && y == [y[0]] + y[1..];
    }
  }

  lemma Utf16NotEmpty(c: Codepoint)
    requires !Surrogate(c)
    ensures |Utf16(c)| > 0
  {
  }

  // ---- Sorting members ----

  ghost predicate StrictlySorted(ms: seq<Member>)
    requires Renderable(ms)
  {
    forall i, j :: 0 <= i < j < |ms| ==> Ahead(ms[i], ms[j])
  }

  ghost predicate DistinctKeys(ms: seq<Member>) {
    forall i, j :: 0 <= i < j < |ms| ==> ms[i].key != ms[j].key
  }

  lemma AheadTransitive(a: Member, b: Member, c: Member)
    requires Unicode(a.key) && Unicode(b.key) && Unicode(c.key) && Ahead(a, b) && Ahead(b, c)
    ensures Ahead(a, c)
  {
    LessTransitive(SortKey(a.key), SortKey(b.key), SortKey(c.key));
  }

  lemma AheadTotal(a: Member, b: Member)
    requires Unicode(a.key) && Unicode(b.key)
    ensures a.key == b.key || Ahead(a, b) || Ahead(b, a)
    ensures Ahead(a, b) ==> !Ahead(b, a) && a.key != b.key
  {
    LessTotal(SortKey(a.key), SortKey(b.key));
    if SortKey(a.key) == SortKey(b.key) { SortKeyInjective(a.key, b.key); }
  }

  lemma {:induction false} InsertKeeps(m: Member, ms: seq<Member>)
    requires Unicode(m.key) && Renderable(ms) && StrictlySorted(ms)
    requires forall k :: 0 <= k < |ms| ==> ms[k].key != m.key
    ensures StrictlySorted(Insert(m, ms))
    ensures forall x :: x in Insert(m, ms) <==> x == m || x in ms
    decreases |ms|
  {
    hide Ahead, Unicode;
    if ms != [] {
      AheadTotal(ms[0], m);
      assert ms == [ms[0]] + ms[1..];
      if Ahead(ms[0], m) {
        InsertKeeps(m, ms[1..]);
        var rest := Insert(m, ms[1..]);
        forall k | 0 <= k < |rest| ensures Ahead(ms[0], rest[k]) {
          assert rest[k] in rest;
        }
      } else {
        forall k | 0 <= k < |ms| ensures Ahead(m, ms[k]) {
          if k > 0 { AheadTransitive(m, ms[0], ms[k]); }
        }
      }
    }
  }

  lemma {:induction false} SortedKeeps(ms: seq<Member>)
    requires Renderable(ms) && DistinctKeys(ms)
    ensures StrictlySorted(Sorted(ms)) && forall x :: x in Sorted(ms) <==> x in ms
    decreases |ms|
  {
    hide Ahead, Unicode, Insert;
    if ms != [] {
      var rest := Sorted(ms[1..]);
      SortedKeeps(ms[1..]);
      assert ms == [ms[0]] + ms[1..];
      forall k | 0 <= k < |rest| ensures rest[k].key != ms[0].key {
        assert rest[k] in ms[1..];
      }
      InsertKeeps(ms[0], rest);
    }
  }

  lemma {:induction false} SortedUnique(a: seq<Member>, b: seq<Member>)
    requires Renderable(a) && Renderable(b) && StrictlySorted(a) && StrictlySorted(b)
    requires forall x :: x in a <==> x in b
    ensures a == b
    decreases |a|
  {
    hide Ahead, Unicode;
    if a == [] {
      assert forall k :: 0 <= k < |b| ==> b[k] in b;
    } else {
      assert a[0] in a && a[0] in b;
      assert b[0] in b && b[0] in a;
      FirstIsLeast(a, b[0]);
      FirstIsLeast(b, a[0]);
      AheadTotal(a[0], b[0]);
      TailMembers(a);
      TailMembers(b);
      SortedUnique(a[1..], b[1..]);
      assert a == [a[0]] + a[1..] && b == [b[0]] + b[1..];
    }
  }

  lemma FirstIsLeast(a: seq<Member>, x: Member)
    requires Renderable(a) && StrictlySorted(a) && x in a
    ensures Unicode(x.key) && (x == a[0] || Ahead(a[0], x))
  {
    hide Ahead;
  }

  lemma TailMembers(a: seq<Member>)
    requires Renderable(a) && StrictlySorted(a) && a != []
    ensures forall x :: x in a[1..] <==> x in a && x != a[0]
  {
    hide Ahead;
    forall k | 1 <= k < |a| ensures a[k] != a[0] {
      AheadTotal(a[0], a[k]);
    }
    forall x | x in a && x != a[0] ensures x in a[1..] {
      var k :| 0 <= k < |a| && a[k] == x;
      assert a[1..][k - 1] == x;
    }
  }

  // ---- Texts of values decode uniquely ----

  lemma TextStartsValue(v: Value)
    requires Canonical(v)
    ensures StartsValue(Text(v))
  {
    hide Escapes, Digits, Join, Texts, Members, Sorted;
    if v.Int? { IntTextStart(v.n); }
  }

  lemma IntTextStart(n: int)
    ensures StartsValue(IntText(n)) && (IntText(n)[0] == '-' || IsDigit(IntText(n)[0]))
  {
    hide Digits;
    if n >= 0 { DigitsAreDigits(n); } else { DigitsAreDigits(-n); }
  }

  /** First characters tell the kinds of values apart. */
  function Kind(v: Value): char {
    match v
    case Null => 'n'
    case Bool(b) => if b then 't' else 'f'
    case Str(_) => '"'
    case Int(_) => '0'
    case Arr(_, _) => '['
    case Obj(_) => '{'
    case Unsupported => '?'
  }

  function KindOf(c: char): char {
    if c == '-' || IsDigit(c) then '0' else c
  }

  lemma FirstTellsKind(v: Value)
    requires Canonical(v)
    ensures Text(v) != "" && KindOf(Text(v)[0]) == Kind(v)
  {
    hide Escapes, Digits, Join, Texts, Members, Sorted, IntText;
    if v.Int? { IntTextStart(v.n); }
  }

  ghost predicate TextsSeparable(xs: seq<string>, ys: seq<string>) {
    forall i, j :: 0 <= i < |xs| && 0 <= j < |ys| ==> Separable(xs[i], ys[j])
  }

  lemma Peel(open: char, inner: string, close: char, s: string)
    ensures (([open] + inner + [close]) + s)[1..] == inner + ([close] + s)
  {
    assert ([open] + inner + [close]) + s == [open] + (inner + ([close] + s));
  }

  lemma EnclosedSplits(open: char, xs: seq<string>, ys: seq<string>, close: char, s: string, t: string)
    requires close == ']' || close == '}'
    requires TextsSeparable(xs, ys)
    requires (forall i :: 0 <= i < |xs| ==> StartsValue(xs[i])) && (forall j :: 0 <= j < |ys| ==> StartsValue(ys[j]))
    requires ([open] + Join(xs) + [close]) + s == ([open] + Join(ys) + [close]) + t
    ensures xs == ys
  {
    hide Separable, Join, StartsValue;
    Peel(open, Join(xs), close, s);
    Peel(open, Join(ys), close, t);
    JoinSplits(xs, ys, close, s, t);
  }

  lemma MemberTextSeparable(p: Member, q: Member)
    requires Unicode(p.key) && Unicode(q.key) && Separable(p.text, q.text)
    ensures Separable(MemberText(p), MemberText(q)) && StartsValue(MemberText(p))
    ensures MemberText(p) == MemberText(q) ==> p == q
  {
    hide Escapes, Quoted, Follows;
    forall s, t | Follows(s) && Follows(t) && MemberText(p) + s == MemberText(q) + t ensures p == q {
      assert MemberText(p) + s == Quoted(p.key) + (":" + p.text + s);
      assert MemberText(q) + t == Quoted(q.key) + (":" + q.text + t);
      QuotedSplit(p.key, q.key, ":" + p.text + s, ":" + q.text + t);
      assert (":" + p.text + s)[1..] == p.text + s && (":" + q.text + t)[1..] == q.text + t;
    }
    assert StartsValue(MemberText(p)) by { QuotedStart(p.key); }
    if MemberText(p) == MemberText(q) {
      assert MemberText(p) + "" == MemberText(q) + "";
      assert Follows("") by { NothingFollows(); }
    }
  }

  lemma NothingFollows()
    ensures Follows("")
  {
  }

  lemma QuotedStart(k: PyString)
    requires Unicode(k)
    ensures Quoted(k) != "" && Quoted(k)[0] == '"'
  {
    hide Escapes;
  }

  ghost predicate MembersSeparable(ps: seq<Member>, qs: seq<Member>) {
    forall p, q :: p in ps && q in qs ==> Separable(p.text, q.text)
  }

  lemma MemberTextsSplit(ps: seq<Member>, qs: seq<Member>)
    requires Renderable(ps) && Renderable(qs) && MembersSeparable(ps, qs)
    ensures TextsSeparable(MemberTexts(ps), MemberTexts(qs))
    ensures MemberTexts(ps) == MemberTexts(qs) ==> ps == qs
  {
    hide Separable, MemberText, Unicode;
    var xs, ys := MemberTexts(ps), MemberTexts(qs);
    forall i, j | 0 <= i < |ps| && 0 <= j < |qs|
      ensures Separable(xs[i], ys[j]) && (xs[i] == ys[j] ==> ps[i] == qs[j])
    {
      assert ps[i] in ps && qs[j] in qs;
      MemberTextSeparable(ps[i], qs[j]);
    }
    if xs == ys {
      forall i | 0 <= i < |ps| ensures ps[i] == qs[i] {
        assert xs[i] == ys[i];
      }
    }
  }

  lemma MemberTextsStart(ps: seq<Member>)
    requires Renderable(ps)
    ensures forall i :: 0 <= i < |ps| ==> StartsValue(MemberTexts(ps)[i])
  {
    hide Quoted;
    forall i | 0 <= i < |ps| ensures StartsValue(MemberTexts(ps)[i]) {
      QuotedStart(ps[i].key);
    }
  }

  lemma TextsStart(items: seq<Value>)
    requires forall k :: 0 <= k < |items| ==> Canonical(items[k])
    ensures forall k :: 0 <= k < |items| ==> StartsValue(Texts(items)[k])
  {
    hide StartsValue, Text, Canonical;
    forall k | 0 <= k < |items| ensures StartsValue(Texts(items)[k]) {
      TextStartsValue(items[k]);
    }
  }

  ghost predicate EntriesCanonical(es: seq<Entry>) {
    forall k :: 0 <= k < |es| ==> Unicode(es[k].key) && Canonical(es[k].value)
  }

  lemma ObjText(v: Value)
    requires Canonical(v) && v.Obj?
    ensures EntriesCanonical(v.entries)
    ensures Text(v) == "{" + Join(MemberTexts(Sorted(Members(v.entries)))) + "}"
  {
  }

  lemma ArrText(v: Value)
    requires Canonical(v) && v.Arr?
    ensures (forall k :: 0 <= k < |v.items| ==> Canonical(v.items[k])) && Text(v) == "[" + Join(Texts(v.items)) + "]"
  {
  }

  lemma DistinctMembers(v: Value)
    requires v.Obj? && EntriesCanonical(v.entries) && Dictionaries(v)
    ensures DistinctKeys(Members(v.entries))
    ensures forall k :: 0 <= k < |v.entries| ==> Dictionaries(v.entries[k].value)
  {
    hide Text, Canonical, Unicode;
  }

  /** Two texts of values, each followed by what may follow a value, agree only when they are the same text. */
  lemma {:induction false} TextSeparable(a: Value, b: Value)
    requires Canonical(a) && Canonical(b) && Dictionaries(a) && Dictionaries(b)
    ensures Separable(Text(a), Text(b))
    decreases a
  {
    hide Text, Canonical, Follows, Dictionaries;
    if a.Arr? && b.Arr? {
      ArraysSeparable(a, b);
    } else if a.Obj? && b.Obj? {
      ObjectsSeparable(a, b);
    } else {
      forall s, t | Follows(s) && Follows(t) && Text(a) + s == Text(b) + t ensures Text(a) == Text(b) {
        FirstTellsKind(a);
        FirstTellsKind(b);
        assert (Text(a) + s)[0] == Text(a)[0] == Text(b)[0];
        LeavesSplit(a, b, s, t);
      }
    }
  }

  lemma LeavesSplit(a: Value, b: Value, s: string, t: string)
    requires Canonical(a) && Canonical(b) && Follows(s) && Follows(t) && Kind(a) == Kind(b) && !a.Arr? && !a.Obj?
    requires Text(a) + s == Text(b) + t
    ensures Text(a) == Text(b)
  {
    hide Escapes, Quoted, IntText, Follows;
    if a.Str? {
      QuotedSplit(a.s, b.s, s, t);
    } else if a.Int? {
      IntSplit(a.n, b.n, s, t);
    }
  }

  lemma ArraysSeparable(a: Value, b: Value)
    requires Canonical(a) && Canonical(b) && Dictionaries(a) && Dictionaries(b) && a.Arr? && b.Arr?
    ensures Separable(Text(a), Text(b))
    decreases a, 0
  {
    hide Text, Canonical, Follows, StartsValue, Join;
    ArrText(a);
    ArrText(b);
    var xs, ys := Texts(a.items), Texts(b.items);
    forall i, j | 0 <= i < |xs| && 0 <= j < |ys| ensures Separable(xs[i], ys[j]) {
      TextSeparable(a.items[i], b.items[j]);
    }
    TextsStart(a.items);
    TextsStart(b.items);
    forall s, t | Follows(s) && Follows(t) && Text(a) + s == Text(b) + t ensures Text(a) == Text(b) {
      EnclosedSplits('[', xs, ys, ']', s, t);
    }
  }

  /** The rendered members of two objects are separable, because their values are. */
  lemma EntriesSeparable(a: Value, b: Value)
    requires Canonical(a) && Canonical(b) && Dictionaries(a) && Dictionaries(b) && a.Obj? && b.Obj?
    ensures EntriesCanonical(a.entries) && EntriesCanonical(b.entries)
    ensures MembersSeparable(Sorted(Members(a.entries)), Sorted(Members(b.entries)))
    decreases a, 0
  {
    hide Text, Canonical, Separable, Sorted, Unicode, Dictionaries;
    ObjText(a);
    ObjText(b);
    DistinctMembers(a);
    DistinctMembers(b);
    var ps, qs := Members(a.entries), Members(b.entries);
    SortedKeeps(ps);
    SortedKeeps(qs);
    forall p, q | p in Sorted(ps) && q in Sorted(qs) ensures Separable(p.text, q.text) {
      var i :| 0 <= i < |ps| && ps[i] == p;
      var j :| 0 <= j < |qs| && qs[j] == q;
      TextSeparable(a.entries[i].value, b.entries[j].value);
    }
  }

  lemma ObjectsSeparable(a: Value, b: Value)
    requires Canonical(a) && Canonical(b) && Dictionaries(a) && Dictionaries(b) && a.Obj? && b.Obj?
    ensures Separable(Text(a), Text(b))
    decreases a, 1
  {
    hide Text, Canonical, Follows, StartsValue, Join, Sorted, Members, MemberTexts, TextsSeparable, MembersSeparable, Dictionaries, Unicode;
    EntriesSeparable(a, b);
    ObjText(a);
    ObjText(b);
    var ps, qs := Sorted(Members(a.entries)), Sorted(Members(b.entries));
    MemberTextsSplit(ps, qs);
    MemberTextsStart(ps);
    MemberTextsStart(qs);
    forall s, t | Follows(s) && Follows(t) && Text(a) + s == Text(b) + t ensures Text(a) == Text(b) {
      EnclosedSplits('{', MemberTexts(ps), MemberTexts(qs), '}', s, t);
    }
  }

  // ---- Equal texts mean equal values ----

  lemma {:induction false} EqualTextsSameValues(a: Value, b: Value)
    requires Canonical(a) && Canonical(b) && Dictionaries(a) && Dictionaries(b) && Text(a) == Text(b)
    ensures Same(a, b)
    decreases a
  {
    hide Text, Canonical, Dictionaries;
    FirstTellsKind(a);
    FirstTellsKind(b);
    if a.Arr? {
      EqualArrays(a, b);
    } else if a.Obj? {
      EqualObjects(a, b);
    } else {
      EqualLeaves(a, b);
    }
  }

  lemma EqualLeaves(a: Value, b: Value)
    requires Canonical(a) && Canonical(b) && Text(a) == Text(b) && Kind(a) == Kind(b) && !a.Arr? && !a.Obj?
    ensures a == b
  {
    hide Escapes, Quoted, IntText;
    assert Text(a) + "" == Text(b) + "";
    if a.Str? {
      QuotedSplit(a.s, b.s, "", "");
    } else if a.Int? {
      IntSplit(a.n, b.n, "", "");
    }
  }

  lemma EqualArrays(a: Value, b: Value)
    requires Canonical(a) && Canonical(b) && Dictionaries(a) && Dictionaries(b) && a.Arr? && b.Arr? && Text(a) == Text(b)
    ensures Same(a, b)
    decreases a, 0
  {
    hide Text, Canonical, StartsValue, Join, Separable;
    ArrText(a);
    ArrText(b);
    var xs, ys := Texts(a.items), Texts(b.items);
    forall i, j | 0 <= i < |xs| && 0 <= j < |ys| ensures Separable(xs[i], ys[j]) {
      TextSeparable(a.items[i], b.items[j]);
    }
    TextsStart(a.items);
    TextsStart(b.items);
    EnclosedSplits('[', xs, ys, ']', "", "");
    forall k | 0 <= k < |a.items| ensures Same(a.items[k], b.items[k]) {
      assert xs[k] == ys[k];
      EqualTextsSameValues(a.items[k], b.items[k]);
    }
  }

  lemma EqualObjectsSameMembers(a: Value, b: Value)
    requires Canonical(a) && Canonical(b) && Dictionaries(a) && Dictionaries(b) && a.Obj? && b.Obj? && Text(a) == Text(b)
    ensures EntriesCanonical(a.entries) && EntriesCanonical(b.entries)
    ensures forall m :: m in Members(a.entries) <==> m in Members(b.entries)
  {
    hide Text, Canonical, StartsValue, Join, Sorted, MemberTexts, TextsSeparable, MembersSeparable, Dictionaries, Unicode, StrictlySorted;
    EntriesSeparable(a, b);
    ObjText(a);
    ObjText(b);
    DistinctMembers(a);
    DistinctMembers(b);
    var ps, qs := Sorted(Members(a.entries)), Sorted(Members(b.entries));
    MemberTextsSplit(ps, qs);
    MemberTextsStart(ps);
    MemberTextsStart(qs);
    EnclosedSplits('{', MemberTexts(ps), MemberTexts(qs), '}', "", "");
    SortedKeeps(Members(a.entries));
    SortedKeeps(Members(b.entries));
  }

  lemma EqualObjects(a: Value, b: Value)
    requires Canonical(a) && Canonical(b) && Dictionaries(a) && Dictionaries(b) && a.Obj? && b.Obj? && Text(a) == Text(b)
    ensures Same(a, b)
    decreases a, 0
  {
    hide Text, Canonical, Dictionaries, Unicode, Same;
    EqualObjectsSameMembers(a, b);
    DistinctMembers(a);
    DistinctMembers(b);
    var es, fs := a.entries, b.entries;
    var ps, qs := Members(es), Members(fs);
    forall i | 0 <= i < |es| ensures Holds(fs, es[i]) {
      assert ps[i] in qs;
      var j :| 0 <= j < |qs| && qs[j] == ps[i];
      EqualTextsSameValues(es[i].value, fs[j].value);
      assert fs[j].key == es[i].key;
    }
    forall j | 0 <= j < |fs| ensures HeldBy(fs[j], es) {
      assert qs[j] in ps;
      var i :| 0 <= i < |ps| && ps[i] == qs[j];
      EqualTextsSameValues(es[i].value, fs[j].value);
      assert es[i].key == fs[j].key;
    }
    SameObjects(a, b);
  }

  lemma SameObjects(a: Value, b: Value)
    requires a.Obj? && b.Obj?
    ensures Same(a, b) <==>
              && (forall i :: 0 <= i < |a.entries| ==> Holds(b.entries, a.entries[i]))
              && (forall j :: 0 <= j < |b.entries| ==> HeldBy(b.entries[j], a.entries))
  {
    hide Holds, HeldBy;
  }

  // ---- Equal values have equal texts ----

  lemma {:induction false} SameValuesEqualTexts(a: Value, b: Value)
    requires Canonical(a) && Canonical(b) && Dictionaries(a) && Dictionaries(b) && Same(a, b)
    ensures Text(a) == Text(b)
    decreases a
  {
    hide Text, Canonical, Dictionaries, Unicode;
    if a.Arr? {
      ArrText(a);
      ArrText(b);
      DictionaryItems(a);
      DictionaryItems(b);
      forall k | 0 <= k < |a.items| ensures Text(a.items[k]) == Text(b.items[k]) {
        SameValuesEqualTexts(a.items[k], b.items[k]);
      }
      assert Texts(a.items) == Texts(b.items);
    } else if a.Obj? {
      SameObjectsEqualTexts(a, b);
    }
  }

  lemma DictionaryItems(a: Value)
    requires a.Arr? && Dictionaries(a)
    ensures forall k :: 0 <= k < |a.items| ==> Dictionaries(a.items[k])
  {
  }

  lemma MemberIsHeld(e: Entry, fs: seq<Entry>)
    requires Unicode(e.key) && Canonical(e.value) && Dictionaries(e.value)
    requires EntriesCanonical(fs) && (forall j :: 0 <= j < |fs| ==> Dictionaries(fs[j].value)) && Holds(fs, e)
    ensures Member(e.key, Text(e.value)) in Members(fs)
    decreases e, 0
  {
    hide Text, Canonical, Dictionaries, Unicode, Same;
    var j :| 0 <= j < |fs| && fs[j].key == e.key && Same(e.value, fs[j].value);
    SameValuesEqualTexts(e.value, fs[j].value);
    assert Members(fs)[j] == Member(e.key, Text(e.value));
  }

  lemma HeldIsMember(f: Entry, es: seq<Entry>)
    requires Unicode(f.key) && Canonical(f.value) && Dictionaries(f.value)
    requires EntriesCanonical(es) && (forall i :: 0 <= i < |es| ==> Dictionaries(es[i].value)) && HeldBy(f, es)
    ensures Member(f.key, Text(f.value)) in Members(es)
    decreases es, 0
  {
    hide Text, Canonical, Dictionaries, Unicode, Same;
    var i :| 0 <= i < |es| && es[i].key == f.key && Same(es[i].value, f.value);
    SameValuesEqualTexts(es[i].value, f.value);
    assert Members(es)[i] == Member(f.key, Text(f.value));
  }

  lemma SameObjectsEqualTexts(a: Value, b: Value)
    requires Canonical(a) && Canonical(b) && Dictionaries(a) && Dictionaries(b) && a.Obj? && b.Obj? && Same(a, b)
    ensures Text(a) == Text(b)
    decreases a, 0
  {
    hide Text, Canonical, Dictionaries, Unicode, Sorted, StrictlySorted, Join, MemberTexts, Same, Holds, HeldBy;
    SameObjects(a, b);
    ObjText(a);
    ObjText(b);
    DistinctMembers(a);
    DistinctMembers(b);
    var ps, qs := Members(a.entries), Members(b.entries);
    forall i | 0 <= i < |ps| ensures ps[i] in qs {
      MemberIsHeld(a.entries[i], b.entries);
    }
    forall j | 0 <= j < |qs| ensures qs[j] in ps {
      HeldIsMember(b.entries[j], a.entries);
    }
    SortedKeeps(ps);
    SortedKeeps(qs);
    SortedUnique(Sorted(ps), Sorted(qs));
  }

  /**
   Canonical text is a complete invariant: two values that canonicalise have the same text exactly
   when they are equal with objects taken as maps.
   */
  lemma TextIsCompleteInvariant(a: Value, b: Value)
    requires Dictionaries(a) && Dictionaries(b)
    requires Canonicalize(a).Some? && Canonicalize(b).Some?
    ensures Canonicalize(a) == Canonicalize(b) <==> Same(a, b)
  {
    hide Text, Canonical, Dictionaries, Same;
    if Text(a) == Text(b) {
      EqualTextsSameValues(a, b);
    }
    if Same(a, b) {
      SameValuesEqualTexts(a, b);
    }
  }
}
