/** Canonical JSON text (RFC 8785) for null, booleans, strings, safe integers, arrays and objects. */
module Jcs {
  import opened Options

  /** A Python string is a sequence of code points and may hold lone surrogates. */
  type Codepoint = c: int | 0 <= c < 0x110000

  type PyString = seq<Codepoint>

  datatype Value =
    | Null
    | Bool(b: bool)
    | Str(s: PyString)
    | Int(n: int)
    | Arr(items: seq<Value>, isTuple: bool)
    | Obj(entries: seq<Entry>)
    | Unsupported

  /** Dictionary entries in insertion order. */
  datatype Entry = Entry(key: PyString, value: Value)

  const MAX_SAFE_INTEGER := 9_007_199_254_740_991

  predicate Surrogate(c: Codepoint) {
    0xD800 <= c <= 0xDFFF
  }

  predicate Unicode(s: PyString) {
    forall k :: 0 <= k < |s| ==> !Surrogate(s[k])
  }

  predicate SafeInteger(n: int) {
    -MAX_SAFE_INTEGER <= n <= MAX_SAFE_INTEGER
  }

  /** What canonicalisation accepts; everything else raises. */
  predicate Canonical(v: Value) {
    match v
    case Null => true
    case Bool(_) => true
    case Str(s) => Unicode(s)
    case Int(n) => SafeInteger(n)
    case Arr(items, _) => forall k :: 0 <= k < |items| ==> Canonical(items[k])
    case Obj(entries) => forall k :: 0 <= k < |entries| ==> Unicode(entries[k].key) && Canonical(entries[k].value)
    case Unsupported => false
  }

  /** A dictionary has each key once. */
  predicate Dictionaries(v: Value) {
    match v
    case Arr(items, _) => forall k :: 0 <= k < |items| ==> Dictionaries(items[k])
    case Obj(entries) =>
      && (forall k :: 0 <= k < |entries| ==> Dictionaries(entries[k].value))
      && (forall i, j :: 0 <= i < j < |entries| ==> entries[i].key != entries[j].key)
    case _ => true
  }

  // ---- Strings ----

  function HexDigit(d: int): char
    requires 0 <= d < 16
  {
    if d < 10 then '0' + d as char else 'a' + (d - 10) as char
  }

  function Escape(c: Codepoint): string
    requires !Surrogate(c)
  {
    if c == 0x22 then "\\\""
    else if c == 0x5C then "\\\\"
    else if c == 0x08 then "\\b"
    else if c == 0x09 then "\\t"
    else if c == 0x0A then "\\n"
    else if c == 0x0C then "\\f"
    else if c == 0x0D then "\\r"
    else if c <= 0x1F then "\\u00" + [HexDigit(c / 16), HexDigit(c % 16)]
    else [c as char]
  }

  function Escapes(s: PyString): string
    requires Unicode(s)
  {
    if s == [] then "" else Escape(s[0]) + Escapes(s[1..])
  }

  function Quoted(s: PyString): string
    requires Unicode(s)
  {
    "\"" + Escapes(s) + "\""
  }

  lemma {:induction false} EscapesAppend(s: PyString, c: Codepoint)
    requires Unicode(s + [c])
    ensures Unicode(s) && !Surrogate(c) && Escapes(s + [c]) == Escapes(s) + Escape(c)
    decreases |s|
  {
    hide Escape;
    assert forall k :: 0 <= k < |s| ==> (s + [c])[k] == s[k];
    assert (s + [c])[|s|] == c;
    if s == [] {
      assert s + [c] == [c] && [c][1..] == [];
    } else {
      assert (s + [c])[1..] == s[1..] + [c];
      EscapesAppend(s[1..], c);
    }
  }

  /** The escaping loop; it refuses exactly the strings with a lone surrogate. */
  method Quote(value: PyString) returns (r: Option<string>)
    ensures r == if Unicode(value) then Some(Quoted(value)) else None
  {
    hide Escape, Escapes;
    for k := 0 to |value|
      invariant forall j :: 0 <= j < k ==> !Surrogate(value[j])
    {
      if Surrogate(value[k]) {
        return None;
      }
    }
    var pieces := "\"";
    assert value[..0] == [];
    EscapesNothing();
    for k := 0 to |value|
      invariant pieces == "\"" + Escapes(value[..k])
    {
      assert value[..k + 1] == value[..k] + [value[k]];
      EscapesAppend(value[..k], value[k]);
      pieces := pieces + Escape(value[k]);
    }
    assert value[..|value|] == value;
    return Some(pieces + "\"");
  }

  lemma EscapesNothing()
    ensures Escapes([]) == ""
  {
  }

  // ---- Integers ----

  function Digits(n: nat): string {
    if n < 10 then ['0' + n as char] else Digits(n / 10) + ['0' + (n % 10) as char]
  }

  function IntText(n: int): string {
    if n < 0 then "-" + Digits(-n) else Digits(n)
  }

  // ---- Keys in UTF-16 order ----

  /** One code point in big-endian UTF-16. */
  function Utf16(c: Codepoint): seq<int>
    requires !Surrogate(c)
  {
    if c < 0x10000 then [c / 256, c % 256]
    else
      var high, low := 0xD800 + (c - 0x10000) / 1024, 0xDC00 + (c - 0x10000) % 1024;
      [high / 256, high % 256, low / 256, low % 256]
  }

  function SortKey(s: PyString): seq<int>
    requires Unicode(s)
  {
    if s == [] then [] else Utf16(s[0]) + SortKey(s[1..])
  }

  /** Lexicographic order of byte strings. */
  predicate Less(a: seq<int>, b: seq<int>) {
    b != [] && (a == [] || a[0] < b[0] || (a[0] == b[0] && Less(a[1..], b[1..])))
  }

  /** A member of an object with its value already rendered. */
  datatype Member = Member(key: PyString, text: string)

  predicate Ahead(a: Member, b: Member)
    requires Unicode(a.key) && Unicode(b.key)
  {
    Less(SortKey(a.key), SortKey(b.key))
  }

  predicate Renderable(ms: seq<Member>) {
    forall k :: 0 <= k < |ms| ==> Unicode(ms[k].key)
  }

  function Insert(m: Member, ms: seq<Member>): (r: seq<Member>)
    requires Unicode(m.key) && Renderable(ms)
    ensures Renderable(r)
  {
    if ms == [] then [m]
    else if Ahead(ms[0], m) then [ms[0]] + Insert(m, ms[1..])
    else [m] + ms
  }

  function Sorted(ms: seq<Member>): (r: seq<Member>)
    requires Renderable(ms)
    ensures Renderable(r)
  {
    if ms == [] then [] else Insert(ms[0], Sorted(ms[1..]))
  }

  // ---- The whole text ----

  function Join(texts: seq<string>): string {
    if texts == [] then ""
    else if |texts| == 1 then texts[0]
    else texts[0] + "," + Join(texts[1..])
  }

  function MemberText(m: Member): string
    requires Unicode(m.key)
  {
    Quoted(m.key) + ":" + m.text
  }

  function MemberTexts(ms: seq<Member>): (r: seq<string>)
    requires Renderable(ms)
    ensures |r| == |ms|
  {
    seq(|ms|, k requires 0 <= k < |ms| => MemberText(ms[k]))
  }

  function Text(v: Value): string
    requires Canonical(v)
    decreases v
  {
    match v
    case Null => "null"
    case Bool(b) => if b then "true" else "false"
    case Str(s) => Quoted(s)
    case Int(n) => IntText(n)
    case Arr(items, _) => "[" + Join(Texts(items)) + "]"
    case Obj(entries) => "{" + Join(MemberTexts(Sorted(Members(entries)))) + "}"
  }

  function Texts(items: seq<Value>): (r: seq<string>)
    requires forall k :: 0 <= k < |items| ==> Canonical(items[k])
    ensures |r| == |items|
    decreases items
  {
    seq(|items|, k requires 0 <= k < |items| => Text(items[k]))
  }

  function Members(entries: seq<Entry>): (r: seq<Member>)
    requires forall k :: 0 <= k < |entries| ==> Unicode(entries[k].key) && Canonical(entries[k].value)
    ensures |r| == |entries| && Renderable(r)
    decreases entries
  {
    seq(|entries|, k requires 0 <= k < |entries| => Member(entries[k].key, Text(entries[k].value)))
  }

  function Canonicalize(v: Value): Option<string> {
    if Canonical(v) then Some(Text(v)) else None
  }

  // ---- Equality with objects taken as maps ----

  /** Equal when the order of object members, and whether an array is a list or a tuple, do not count. */
  predicate Same(a: Value, b: Value)
    decreases a, 0
  {
    match a
    case Arr(xs, _) => b.Arr? && |xs| == |b.items| && forall k :: 0 <= k < |xs| ==> Same(xs[k], b.items[k])
    case Obj(es) =>
      && b.Obj?
      && (forall i :: 0 <= i < |es| ==> Holds(b.entries, es[i]))
      && (forall j :: 0 <= j < |b.entries| ==> HeldBy(b.entries[j], es))
    case _ => a == b
  }

  /** The dictionary has the entry's key, with the same value. */
  predicate Holds(fs: seq<Entry>, e: Entry)
    decreases e, 0
  {
    exists j :: 0 <= j < |fs| && fs[j].key == e.key && Same(e.value, fs[j].value)
  }

  predicate HeldBy(f: Entry, es: seq<Entry>)
    decreases es, 0
  {
    exists i :: 0 <= i < |es| && es[i].key == f.key && Same(es[i].value, f.value)
  }
}
