/** The order of the members of an object: by the UTF-16 code units of their keys (section 3.2.3 of RFC 8785). */
module JcsOrder {
  import opened Jcs
  import opened JcsUnique
  import opened Options

  /** The code units of a code point: itself, or a surrogate pair (RFC 2781). */
  function Units(c: Codepoint): (u: seq<int>)
    requires !Surrogate(c)
    ensures forall k :: 0 <= k < |u| ==> 0 <= u[k] < 0x10000
    ensures if c < 0x10000 then u == [c]
            else |u| == 2 && 0xD800 <= u[0] < 0xDC00 && 0xDC00 <= u[1] < 0xE000
                 && c == 0x10000 + (u[0] - 0xD800) * 0x400 + (u[1] - 0xDC00)
  {
    if c < 0x10000 then [c] else [0xD800 + (c - 0x10000) / 0x400, 0xDC00 + (c - 0x10000) % 0x400]
  }

  function CodeUnits(s: PyString): (u: seq<int>)
    requires Unicode(s)
    ensures forall k :: 0 <= k < |u| ==> 0 <= u[k] < 0x10000
  {
    if s == [] then [] else Units(s[0]) + CodeUnits(s[1..])
  }

  /** The first place where the two differ: a smaller unit, or the end of the shorter one. */
  ghost predicate DifferAt(u: seq<int>, v: seq<int>, k: nat) {
    && k <= |u| && k < |v| && u[..k] == v[..k]
    && (k < |u| ==> u[k] < v[k])
  }

  ghost predicate Precedes(u: seq<int>, v: seq<int>) {
    exists k: nat :: DifferAt(u, v, k)
  }

  /** Units as bytes, the high one first. */
  function Octets(u: seq<int>): seq<int> {
    if u == [] then [] else [u[0] / 256, u[0] % 256] + Octets(u[1..])
  }

  lemma {:induction false} OctetsAppend(u: seq<int>, v: seq<int>)
    ensures Octets(u + v) == Octets(u) + Octets(v)
    decreases |u|
  {
    if u == [] {
      assert u + v == v && Octets(u) + Octets(v) == Octets(v);
    } else {
      assert (u + v)[1..] == u[1..] + v;
      OctetsAppend(u[1..], v);
      assert [u[0] / 256, u[0] % 256] + (Octets(u[1..]) + Octets(v)) == Octets(u) + Octets(v);
    }
  }

  lemma OctetsOf(c: Codepoint)
    requires !Surrogate(c)
    ensures Octets(Units(c)) == Utf16(c)
  {
    var u := Units(c);
    if c < 0x10000 {
      assert u[1..] == [];
    } else {
      assert u[1..] == [u[1]] && [u[1]][1..] == [];
      assert Octets(u) == [u[0] / 256, u[0] % 256] + Octets([u[1]]);
    }
  }

  lemma {:induction false} SortKeyIsOctets(s: PyString)
    requires Unicode(s)
    ensures SortKey(s) == Octets(CodeUnits(s))
    decreases |s|
  {
    hide Utf16, Units, Octets;
    if s == [] {
      NoOctets();
    } else {
      SortKeyIsOctets(s[1..]);
      OctetsOf(s[0]);
      OctetsAppend(Units(s[0]), CodeUnits(s[1..]));
    }
  }

  lemma NoOctets()
    ensures Octets([]) == []
  {
  }

  lemma UnfoldLess(a: seq<int>, b: seq<int>, x: int, y: int, x': int, y': int)
    ensures Less([x, y] + a, [x', y'] + b) <==> x < x' || (x == x' && (y < y' || (y == y' && Less(a, b))))
  {
    assert ([x, y] + a)[1..] == [y] + a && ([x', y'] + b)[1..] == [y'] + b;
    assert ([y] + a)[1..] == a && ([y'] + b)[1..] == b;
  }

  lemma UnfoldPrecedes(u: seq<int>, v: seq<int>)
    ensures Precedes(u, v) <==> v != [] && (u == [] || u[0] < v[0] || (u[0] == v[0] && Precedes(u[1..], v[1..])))
  {
    forall k: nat | DifferAt(u, v, k) ensures v != [] && (u == [] || u[0] <= v[0]) {
      if k > 0 { assert u[..k][0] == u[0] && v[..k][0] == v[0]; }
    }
    if v != [] && (u == [] || u[0] < v[0]) {
      assert DifferAt(u, v, 0);
    }
    if v != [] && u != [] && u[0] == v[0] {
      TailsPrecede(u, v);
    }
  }

  lemma TailsPrecede(u: seq<int>, v: seq<int>)
    requires u != [] && v != [] && u[0] == v[0]
    ensures Precedes(u, v) <==> Precedes(u[1..], v[1..])
  {
    if k: nat :| DifferAt(u, v, k) {
      assert k > 0;
      assert u[1..][..k - 1] == u[..k][1..] && v[1..][..k - 1] == v[..k][1..];
      assert DifferAt(u[1..], v[1..], k - 1);
    }
    if k: nat :| DifferAt(u[1..], v[1..], k) {
      assert u[..k + 1] == [u[0]] + u[1..][..k] && v[..k + 1] == [v[0]] + v[1..][..k];
      assert DifferAt(u, v, k + 1);
    }
  }

  lemma {:induction false} OctetOrder(u: seq<int>, v: seq<int>)
    requires (forall k :: 0 <= k < |u| ==> 0 <= u[k] < 0x10000) && forall k :: 0 <= k < |v| ==> 0 <= v[k] < 0x10000
    ensures Less(Octets(u), Octets(v)) <==> Precedes(u, v)
    decreases |u|
  {
    hide Precedes;
    UnfoldPrecedes(u, v);
    if u != [] && v != [] {
      hide Less;
      UnfoldLess(Octets(u[1..]), Octets(v[1..]), u[0] / 256, u[0] % 256, v[0] / 256, v[0] % 256);
      OctetOrder(u[1..], v[1..]);
    }
  }

  /** One member comes before another exactly when its key does, by code units. */
  lemma AheadIff(a: Member, b: Member)
    requires Unicode(a.key) && Unicode(b.key)
    ensures Ahead(a, b) <==> Precedes(CodeUnits(a.key), CodeUnits(b.key))
  {
    hide Precedes, Less, SortKey, CodeUnits;
    SortKeyIsOctets(a.key);
    SortKeyIsOctets(b.key);
    OctetOrder(CodeUnits(a.key), CodeUnits(b.key));
  }

  /** The members of a dictionary come out in the order of their keys, each of them once and none besides. */
  lemma MembersComeInOrder(v: Value)
    requires v.Obj? && Canonical(v) && Dictionaries(v)
    ensures var ms := Sorted(Members(v.entries));
            && |ms| == |v.entries|
            && (forall i, j :: 0 <= i < j < |ms| ==> Precedes(CodeUnits(ms[i].key), CodeUnits(ms[j].key)))
            && (forall m :: m in ms <==> exists k :: 0 <= k < |v.entries| && m == Member(v.entries[k].key, Text(v.entries[k].value)))
  {
    hide Precedes, Ahead, CodeUnits, Sorted, Text, Canonical, Unicode;
    var members := Members(v.entries) by { ObjText(v); }
    DistinctMembers(v);
    SortedKeeps(members);
    SortedLength(members);
    var ms := Sorted(members);
    forall i, j | 0 <= i < j < |ms| ensures Precedes(CodeUnits(ms[i].key), CodeUnits(ms[j].key)) {
      AheadIff(ms[i], ms[j]);
    }
    forall m ensures m in ms <==> exists k :: 0 <= k < |v.entries| && m == Member(v.entries[k].key, Text(v.entries[k].value)) {
      if m in members {
        var k :| 0 <= k < |members| && members[k] == m;
        assert m == Member(v.entries[k].key, Text(v.entries[k].value));
      }
      if k :| 0 <= k < |v.entries| && m == Member(v.entries[k].key, Text(v.entries[k].value)) {
        assert members[k] == m;
      }
    }
  }

  lemma {:induction false} SortedLength(ms: seq<Member>)
    requires Renderable(ms)
    ensures |Sorted(ms)| == |ms|
    decreases |ms|
  {
    if ms != [] {
      SortedLength(ms[1..]);
      InsertLength(ms[0], Sorted(ms[1..]));
    }
  }

  lemma {:induction false} InsertLength(m: Member, ms: seq<Member>)
    requires Unicode(m.key) && Renderable(ms)
    ensures |Insert(m, ms)| == |ms| + 1
    decreases |ms|
  {
    hide Ahead;
    if ms != [] && Ahead(ms[0], m) {
      InsertLength(m, ms[1..]);
    }
  }

  // ---- Brackets and separators ----

  lemma EmptyForms(items: seq<Value>, entries: seq<Entry>)
    requires items == [] && entries == []
    ensures Canonicalize(Arr(items, true)) == Some("[]") && Canonicalize(Obj(entries)) == Some("{}")
  {
    NothingJoined();
    ArrText(Arr(items, true));
    ObjText(Obj(entries));
    assert Texts(items) == [] && Members(entries) == [];
    assert "[" + "" + "]" == "[]" && "{" + "" + "}" == "{}";
  }

  /** One more item comes behind a comma, before the closing bracket. */
  lemma ArrayForms(items: seq<Value>, y: Value)
    requires Canonical(Arr(items, false)) && Canonical(y)
    ensures Canonical(Arr(items + [y], false)) && |Text(Arr(items, false))| >= 2
    ensures Text(Arr(items + [y], false)) ==
            Text(Arr(items, false))[..|Text(Arr(items, false))| - 1] + (if items == [] then "" else ",") + Text(y) + "]"
  {
    LongerIsCanonical(items, y);
    hide *;
    ArrText(Arr(items, false));
    ArrText(Arr(items + [y], false));
    TextsSnoc(items, y);
    JoinSnoc(Texts(items), Text(y));
    Bracketed(Join(Texts(items)), if items == [] then "" else ",", Text(y));
  }

  lemma LongerIsCanonical(items: seq<Value>, y: Value)
    requires Canonical(Arr(items, false)) && Canonical(y)
    ensures Canonical(Arr(items + [y], false))
  {
    assert forall k :: 0 <= k < |items + [y]| ==> Canonical((items + [y])[k]);
  }

  lemma TextsSnoc(items: seq<Value>, y: Value)
    requires (forall k :: 0 <= k < |items| ==> Canonical(items[k])) && Canonical(y)
    requires forall k :: 0 <= k < |items + [y]| ==> Canonical((items + [y])[k])
    ensures Texts(items + [y]) == Texts(items) + [Text(y)]
  {
    hide Text, Canonical;
  }

  lemma Bracketed(init: string, comma: string, last: string)
    ensures var t := "[" + init + "]"; "[" + (init + comma + last) + "]" == t[..|t| - 1] + comma + last + "]"
  {
    var t := "[" + init + "]";
    assert t[..|t| - 1] == "[" + init;
  }

  lemma NothingJoined()
    ensures Join([]) == "" && Sorted([]) == [] && MemberTexts([]) == []
  {
  }

  lemma {:induction false} JoinSnoc(texts: seq<string>, last: string)
    ensures Join(texts + [last]) == Join(texts) + (if texts == [] then "" else ",") + last
    decreases |texts|
  {
    if |texts| > 0 {
      assert (texts + [last])[1..] == texts[1..] + [last];
      JoinSnoc(texts[1..], last);
    }
  }

  /** A key, a colon and a value, in braces. */
  lemma ObjectForm(e: Entry)
    requires Unicode(e.key) && Canonical(e.value)
    ensures Canonical(Obj([e])) && Text(Obj([e])) == "{" + Quoted(e.key) + ":" + Text(e.value) + "}"
  {
    var m := Member(e.key, Text(e.value));
    assert Members([e]) == [m];
    assert Sorted([m]) == [m] by { assert [m][1..] == []; NothingJoined(); }
    assert MemberTexts([m]) == [MemberText(m)];
  }
}
