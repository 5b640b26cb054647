/** The audit chain: every row binds the row before it through an HMAC over canonical text. */
module Audit {
  import opened Options
  import opened Jcs
  import JcsUnique

  /** A row of audit_chain; rows are kept in the order of their sequence numbers. */
  datatype Row = Row(sequence: nat, previous: Option<PyString>, recordHash: PyString, hmac: PyString)

  datatype AuditError = ForbiddenField | NotCanonical | DuplicateHmac | LinkMismatch | HmacMismatch

  /** The keyed HMAC and SHA-256, as functions of canonical text, and the forbidden field names. */
  datatype Crypto = Crypto(mac: string -> PyString, hash: string -> PyString, forbidden: PyString -> bool)

  /** No two texts share an HMAC or a hash, and both functions print plain hexadecimal. */
  ghost predicate Sound(c: Crypto) {
    && (forall x, y :: c.mac(x) == c.mac(y) ==> x == y)
    && (forall x, y :: c.hash(x) == c.hash(y) ==> x == y)
    && (forall x :: Unicode(c.mac(x)) && Unicode(c.hash(x)))
  }

  function Ascii(s: string): (p: PyString)
    ensures Unicode(p) && |p| == |s|
  {
    seq(|s|, k requires 0 <= k < |s| => s[k] as int)
  }

  /** The check before an append: dictionaries and lists are searched, tuples are not. */
  predicate BodyFree(c: Crypto, v: Value)
    decreases v
  {
    match v
    case Obj(entries) => forall k :: 0 <= k < |entries| ==> !c.forbidden(entries[k].key) && BodyFree(c, entries[k].value)
    case Arr(items, isTuple) => isTuple || forall k :: 0 <= k < |items| ==> BodyFree(c, items[k])
    case _ => true
  }

  /** No forbidden field at any depth. */
  predicate Clean(c: Crypto, v: Value)
    decreases v
  {
    match v
    case Obj(entries) => forall k :: 0 <= k < |entries| ==> !c.forbidden(entries[k].key) && Clean(c, entries[k].value)
    case Arr(items, _) => forall k :: 0 <= k < |items| ==> Clean(c, items[k])
    case _ => true
  }

  /** The tuples that the search stops at hold no forbidden field. */
  predicate TuplesClean(c: Crypto, v: Value)
    decreases v
  {
    match v
    case Obj(entries) => forall k :: 0 <= k < |entries| ==> TuplesClean(c, entries[k].value)
    case Arr(items, isTuple) =>
      if isTuple then forall k :: 0 <= k < |items| ==> Clean(c, items[k])
      else forall k :: 0 <= k < |items| ==> TuplesClean(c, items[k])
    case _ => true
  }

  /** The check finds every forbidden field exactly when no tuple hides one. */
  lemma {:induction false} CleanIffChecked(c: Crypto, v: Value)
    ensures Clean(c, v) <==> BodyFree(c, v) && TuplesClean(c, v)
    decreases v
  {
    match v
    case Obj(entries) =>
      forall k | 0 <= k < |entries|
        ensures Clean(c, entries[k].value) <==> BodyFree(c, entries[k].value) && TuplesClean(c, entries[k].value)
      {
        CleanIffChecked(c, entries[k].value);
      }
    case Arr(items, _) =>
      forall k | 0 <= k < |items| ensures Clean(c, items[k]) <==> BodyFree(c, items[k]) && TuplesClean(c, items[k]) {
        CleanIffChecked(c, items[k]);
      }
    case _ =>
  }

  /** For instance, a forbidden field in a dictionary in a tuple passes the check. */
  lemma TupleHidesField(c: Crypto, key: PyString, hidden: Value)
    requires c.forbidden(key)
    ensures var event := Obj([Entry(Ascii("files"), Arr([Obj([Entry(key, hidden)])], true))]);
            (!c.forbidden(Ascii("files")) ==> BodyFree(c, event)) && !Clean(c, event)
  {
    var inner := Obj([Entry(key, hidden)]);
    var files := Arr([inner], true);
    var event := Obj([Entry(Ascii("files"), files)]);
    assert inner.entries[0].key == key && !Clean(c, inner);
    assert files.items[0] == inner && !Clean(c, files);
    assert event.entries[0].value == files;
  }

  function PreviousValue(previous: Option<PyString>): Value {
    if previous.None? then Null else Str(previous.value)
  }

  const PREVIOUS_HMAC := Ascii("previous_hmac")
  const RECORD_HASH := Ascii("record_hash")

  function Link(previous: Option<PyString>, recordHash: PyString): Value {
    Obj([Entry(PREVIOUS_HMAC, PreviousValue(previous)), Entry(RECORD_HASH, Str(recordHash))])
  }

  function Envelope(sequence: nat, createdAt: PyString, previous: Option<PyString>, event: Value): Value {
    Obj([Entry(Ascii("sequence"), Int(sequence)), Entry(Ascii("created_at"), Str(createdAt)),
         Entry(PREVIOUS_HMAC, PreviousValue(previous)), Entry(Ascii("event"), event)])
  }

  function LinkMac(c: Crypto, previous: Option<PyString>, recordHash: PyString): Option<PyString> {
    var text := Canonicalize(Link(previous, recordHash));
    if text.None? then None else Some(c.mac(text.value))
  }

  function LastHmac(rows: seq<Row>): Option<PyString> {
    if rows == [] then None else Some(rows[|rows| - 1].hmac)
  }

  function NextSequence(rows: seq<Row>): nat {
    if rows == [] then 1 else rows[|rows| - 1].sequence + 1
  }

  predicate HasHmac(rows: seq<Row>, hmac: PyString) {
    exists k :: 0 <= k < |rows| && rows[k].hmac == hmac
  }

  /** The row an append adds. */
  function NewRow(c: Crypto, rows: seq<Row>, createdAt: PyString, event: Value): Result<Row, AuditError> {
    if !BodyFree(c, event) then Err(ForbiddenField)
    else
      var previous := LastHmac(rows);
      var text := Canonicalize(Envelope(NextSequence(rows), createdAt, previous, event));
      if text.None? then Err(NotCanonical)
      else
        var recordHash := c.hash(text.value);
        var mac := LinkMac(c, previous, recordHash);
        if mac.None? then Err(NotCanonical)
        else if HasHmac(rows, mac.value) then Err(DuplicateHmac)
        else Ok(Row(NextSequence(rows), previous, recordHash, mac.value))
  }

  /** Row k continues the chain before it. */
  predicate Linked(c: Crypto, rows: seq<Row>, k: nat)
    requires k < |rows|
  {
    && rows[k].sequence == k + 1
    && rows[k].previous == LastHmac(rows[..k])
    && LinkMac(c, rows[k].previous, rows[k].recordHash) == Some(rows[k].hmac)
  }

  predicate Chained(c: Crypto, rows: seq<Row>) {
    forall k :: 0 <= k < |rows| ==> Linked(c, rows, k)
  }

  /** Row k is the first that does not continue the chain before it. */
  ghost predicate FirstBroken(c: Crypto, rows: seq<Row>, k: nat) {
    k < |rows| && !Linked(c, rows, k) && forall j :: 0 <= j < k ==> Linked(c, rows, j)
  }

  /** What is wrong with it: number or link before HMAC. */
  ghost function Fault(c: Crypto, rows: seq<Row>, k: nat): AuditError
    requires k < |rows|
  {
    if rows[k].sequence != k + 1 || rows[k].previous != LastHmac(rows[..k]) then LinkMismatch
    else if LinkMac(c, rows[k].previous, rows[k].recordHash).None? then NotCanonical
    else HmacMismatch
  }

  class AuditChain {
    const crypto: Crypto
    var rows: seq<Row>

    constructor (crypto: Crypto)
      ensures this.crypto == crypto && rows == []
    {
      this.crypto := crypto;
      rows := [];
    }

    /** One transaction; every raise leaves the table as it was. */
    method Append(createdAt: PyString, event: Value) returns (r: Result<Row, AuditError>)
      modifies this
      ensures r == NewRow(crypto, old(rows), createdAt, event)
      ensures rows == if r.Ok? then old(rows) + [r.value] else old(rows)
    {
      if !BodyFree(crypto, event) {
        return Err(ForbiddenField);
      }
      var sequence := if rows == [] then 1 else rows[|rows| - 1].sequence + 1;
      var previous := LastHmac(rows);
      var text := Canonicalize(Envelope(sequence, createdAt, previous, event));
      if text.None? {
        return Err(NotCanonical);
      }
      var recordHash := crypto.hash(text.value);
      var mac := LinkMac(crypto, previous, recordHash);
      if mac.None? {
        return Err(NotCanonical);
      }
      if HasHmac(rows, mac.value) {
        return Err(DuplicateHmac);
      }
      var row := Row(sequence, previous, recordHash, mac.value);
      rows := rows + [row];
      return Ok(row);
    }

    /** Walks the table; the count is returned exactly for an unbroken chain. */
    method Verify() returns (r: Result<nat, AuditError>)
      ensures r.Ok? <==> Chained(crypto, rows)
      ensures r.Ok? ==> r.value == |rows|
      ensures r.Err? ==> exists k: nat :: FirstBroken(crypto, rows, k) && r.error == Fault(crypto, rows, k)
    {
      hide LinkMac;
      var previous: Option<PyString> := None;
      for count := 0 to |rows|
        invariant forall k :: 0 <= k < count ==> Linked(crypto, rows, k)
        invariant previous == LastHmac(rows[..count])
      {
        var row := rows[count];
        if row.sequence != count + 1 || row.previous != previous {
          assert FirstBroken(crypto, rows, count);
          return Err(LinkMismatch);
        }
        var expected := LinkMac(crypto, previous, row.recordHash);
        if expected != Some(row.hmac) {
          assert FirstBroken(crypto, rows, count);
          return Err(if expected.None? then NotCanonical else HmacMismatch);
        }
        previous := Some(row.hmac);
        assert rows[..count + 1][count] == row;
      }
      return Ok(|rows|);
    }
  }

  // ---- Equal HMACs, equal links ----

  lemma KeysDiffer()
    ensures PREVIOUS_HMAC != RECORD_HASH
  {
    assert |PREVIOUS_HMAC| == 13 && |RECORD_HASH| == 11;
  }

  lemma LinksAreDictionaries(previous: Option<PyString>, recordHash: PyString)
    ensures Dictionaries(Link(previous, recordHash))
  {
    KeysDiffer();
  }

  lemma SameLinks(p: Option<PyString>, h: PyString, q: Option<PyString>, g: PyString)
    requires Same(Link(p, h), Link(q, g))
    ensures p == q && h == g
  {
    hide Same, Holds;
    KeysDiffer();
    var a, b := Link(p, h), Link(q, g);
    JcsUnique.SameObjects(a, b);
    assert Holds(b.entries, a.entries[0]) && Holds(b.entries, a.entries[1]);
    HeldValue(b.entries, a.entries[0], 0);
    HeldValue(b.entries, a.entries[1], 1);
  }

  lemma HeldValue(fs: seq<Entry>, e: Entry, at: nat)
    requires Holds(fs, e) && at < |fs| && fs[at].key == e.key && (forall j :: 0 <= j < |fs| && j != at ==> fs[j].key != e.key)
    requires !e.value.Obj? && !e.value.Arr?
    ensures fs[at].value == e.value
  {
  }

  lemma EqualMacsEqualLinks(c: Crypto, p: Option<PyString>, h: PyString, q: Option<PyString>, g: PyString)
    requires Sound(c) && LinkMac(c, p, h).Some? && LinkMac(c, p, h) == LinkMac(c, q, g)
    ensures p == q && h == g
  {
    hide Same, Canonical, Text, Dictionaries;
    LinksAreDictionaries(p, h);
    LinksAreDictionaries(q, g);
    JcsUnique.TextIsCompleteInvariant(Link(p, h), Link(q, g));
    SameLinks(p, h, q, g);
  }

  // ---- The last HMAC fixes the whole table ----

  lemma InitChained(c: Crypto, rows: seq<Row>)
    requires Chained(c, rows) && rows != []
    ensures Chained(c, rows[..|rows| - 1])
    ensures var last := rows[|rows| - 1];
            && last.sequence == |rows|
            && last.previous == LastHmac(rows[..|rows| - 1])
            && LinkMac(c, last.previous, last.recordHash) == Some(last.hmac)
  {
    hide LinkMac;
    var init := rows[..|rows| - 1];
    forall k | 0 <= k < |init| ensures Linked(c, init, k) {
      assert Linked(c, rows, k) && init[..k] == rows[..k];
    }
    assert Linked(c, rows, |rows| - 1);
  }

  /** Two tables that verify and end in the same HMAC are the same table. */
  lemma {:induction false} LastHmacFixesTable(c: Crypto, a: seq<Row>, b: seq<Row>)
    requires Sound(c) && Chained(c, a) && Chained(c, b) && LastHmac(a) == LastHmac(b)
    ensures a == b
    decreases |a|
  {
    hide LinkMac, Sound, Chained;
    if a != [] && b != [] {
      var x, y := a[|a| - 1], b[|b| - 1];
      InitChained(c, a);
      InitChained(c, b);
      EqualMacsEqualLinks(c, x.previous, x.recordHash, y.previous, y.recordHash);
      LastHmacFixesTable(c, a[..|a| - 1], b[..|b| - 1]);
      assert a == a[..|a| - 1] + [x] && b == b[..|b| - 1] + [y];
    }
  }

  /** No two rows of an unbroken chain share an HMAC. */
  lemma HmacsAreDistinct(c: Crypto, rows: seq<Row>, i: nat, j: nat)
    requires Sound(c) && Chained(c, rows) && i < j < |rows|
    ensures rows[i].hmac != rows[j].hmac
  {
    hide LinkMac, Sound;
    PrefixChained(c, rows, i + 1);
    PrefixChained(c, rows, j + 1);
    assert LastHmac(rows[..i + 1]) == Some(rows[i].hmac) && LastHmac(rows[..j + 1]) == Some(rows[j].hmac);
    if rows[i].hmac == rows[j].hmac {
      LastHmacFixesTable(c, rows[..i + 1], rows[..j + 1]);
    }
  }

  lemma PrefixChained(c: Crypto, rows: seq<Row>, n: nat)
    requires Chained(c, rows) && n <= |rows|
    ensures Chained(c, rows[..n])
  {
    hide LinkMac;
    forall k | 0 <= k < n ensures Linked(c, rows[..n], k) {
      assert Linked(c, rows, k) && rows[..n][..k] == rows[..k];
    }
  }

  // ---- Appending ----

  lemma LinkIsCanonical(c: Crypto, previous: Option<PyString>, recordHash: PyString)
    requires Unicode(recordHash) && (previous.Some? ==> Unicode(previous.value))
    ensures LinkMac(c, previous, recordHash).Some?
  {
    hide Text;
    var v := Link(previous, recordHash);
    assert forall k :: 0 <= k < |v.entries| ==> Unicode(v.entries[k].key) && Canonical(v.entries[k].value);
  }

  /** The next HMAC is not in the table yet, so the unique column is never violated. */
  lemma NextHmacIsNew(c: Crypto, rows: seq<Row>, recordHash: PyString)
    requires Sound(c) && Chained(c, rows) && LinkMac(c, LastHmac(rows), recordHash).Some?
    ensures !HasHmac(rows, LinkMac(c, LastHmac(rows), recordHash).value)
  {
    hide LinkMac, Sound;
    var row := Row(|rows| + 1, LastHmac(rows), recordHash, LinkMac(c, LastHmac(rows), recordHash).value);
    ExtendChain(c, rows, row);
    var longer := rows + [row];
    forall k | 0 <= k < |rows| ensures rows[k].hmac != row.hmac {
      HmacsAreDistinct(c, longer, k, |rows|);
      assert longer[k] == rows[k] && longer[|rows|] == row;
    }
  }

  lemma ExtendChain(c: Crypto, rows: seq<Row>, row: Row)
    requires Chained(c, rows) && row.sequence == |rows| + 1 && row.previous == LastHmac(rows)
    requires LinkMac(c, row.previous, row.recordHash) == Some(row.hmac)
    ensures Chained(c, rows + [row])
  {
    hide LinkMac;
    var longer := rows + [row];
    forall k | 0 <= k < |longer| ensures Linked(c, longer, k) {
      assert longer[..k] == rows[..k];
      if k < |rows| { assert Linked(c, rows, k); } else { assert rows[..k] == rows; }
    }
  }

  /** An envelope has a canonical text exactly when its parts do. */
  lemma EnvelopeCanonicalIff(sequence: nat, createdAt: PyString, previous: Option<PyString>, event: Value)
    ensures Canonical(Envelope(sequence, createdAt, previous, event)) <==>
            SafeInteger(sequence) && Unicode(createdAt) && (previous.Some? ==> Unicode(previous.value)) && Canonical(event)
  {
    var v := Envelope(sequence, createdAt, previous, event);
    assert |v.entries| == 4;
    assert v.entries[0].value == Int(sequence) && v.entries[1].value == Str(createdAt);
    assert v.entries[2].value == PreviousValue(previous) && v.entries[3].value == event;
    assert forall k :: 0 <= k < |v.entries| ==> Unicode(v.entries[k].key);
  }

  /**
   On an unbroken chain an append keeps the chain unbroken, and fails exactly when the event has a
   forbidden field or no canonical text, its time has none, or the table is full.
   */
  lemma AppendKeepsChain(c: Crypto, rows: seq<Row>, createdAt: PyString, event: Value)
    requires Sound(c) && Chained(c, rows)
    ensures var r := NewRow(c, rows, createdAt, event);
            && (r.Ok? <==> BodyFree(c, event) && Canonical(event) && Unicode(createdAt) && |rows| < MAX_SAFE_INTEGER)
            && (r.Ok? ==> Chained(c, rows + [r.value]))
  {
    hide LinkMac, Text, Canonical, BodyFree, Unicode, Envelope;
    assert rows != [] ==> Linked(c, rows, |rows| - 1);
    EnvelopeCanonicalIff(|rows| + 1, createdAt, LastHmac(rows), event);
    if rows != [] { HmacIsUnicode(c, rows); }
    var text := Canonicalize(Envelope(|rows| + 1, createdAt, LastHmac(rows), event));
    if text.Some? {
      var recordHash := c.hash(text.value);
      LinkIsCanonical(c, LastHmac(rows), recordHash);
      NextHmacIsNew(c, rows, recordHash);
    }
    var r := NewRow(c, rows, createdAt, event);
    if r.Ok? {
      ExtendChain(c, rows, r.value);
    }
  }

  lemma HmacIsUnicode(c: Crypto, rows: seq<Row>)
    requires Sound(c) && Chained(c, rows) && rows != []
    ensures Unicode(rows[|rows| - 1].hmac)
  {
    hide Text, Canonical;
    assert Linked(c, rows, |rows| - 1);
  }

  /** The table after appending events, each with its time; a failing append is skipped. */
  function AppendAll(c: Crypto, rows: seq<Row>, events: seq<(PyString, Value)>): seq<Row>
    decreases |events|
  {
    if events == [] then rows
    else
      var r := NewRow(c, rows, events[0].0, events[0].1);
      AppendAll(c, if r.Ok? then rows + [r.value] else rows, events[1..])
  }

  predicate Acceptable(c: Crypto, events: seq<(PyString, Value)>) {
    forall k :: 0 <= k < |events| ==> Unicode(events[k].0) && BodyFree(c, events[k].1) && Canonical(events[k].1)
  }

  /** Any n acceptable appends make a table that verifies, with count n more. */
  lemma {:induction false} AppendsVerify(c: Crypto, rows: seq<Row>, events: seq<(PyString, Value)>)
    requires Sound(c) && Chained(c, rows) && Acceptable(c, events)
    requires |rows| + |events| <= MAX_SAFE_INTEGER
    ensures Chained(c, AppendAll(c, rows, events)) && |AppendAll(c, rows, events)| == |rows| + |events|
    decreases |events|
  {
    hide Canonical, BodyFree, Unicode, NewRow, Chained, Sound;
    if events != [] {
      var time, event := events[0].0, events[0].1;
      assert Unicode(time) && BodyFree(c, event) && Canonical(event);
      AppendKeepsChain(c, rows, time, event);
      AppendsVerify(c, rows + [NewRow(c, rows, time, event).value], events[1..]);
    }
  }

  // ---- The record hash fixes the event ----

  lemma EnvelopeKeysDiffer()
    ensures |Ascii("sequence")| == 8 && |Ascii("created_at")| == 10 && |PREVIOUS_HMAC| == 13 && |Ascii("event")| == 5
  {
  }

  lemma EnvelopesAreDictionaries(sequence: nat, createdAt: PyString, previous: Option<PyString>, event: Value)
    requires Dictionaries(event)
    ensures Dictionaries(Envelope(sequence, createdAt, previous, event))
  {
    EnvelopeKeysDiffer();
    var v := Envelope(sequence, createdAt, previous, event);
    assert |v.entries| == 4;
    assert v.entries[3].value == event;
  }

  /** A key that stands at one place only is held there. */
  lemma HeldThere(fs: seq<Entry>, e: Entry, at: nat)
    requires Holds(fs, e) && at < |fs| && (forall j :: 0 <= j < |fs| && j != at ==> fs[j].key != e.key)
    ensures Same(e.value, fs[at].value)
  {
    hide Same;
  }

  lemma SamePrevious(p: Option<PyString>, q: Option<PyString>)
    requires Same(PreviousValue(p), PreviousValue(q))
    ensures p == q
  {
  }

  lemma SameEnvelopes(s: nat, t: PyString, p: Option<PyString>, e: Value, s': nat, t': PyString, p': Option<PyString>, e': Value)
    requires Same(Envelope(s, t, p, e), Envelope(s', t', p', e'))
    ensures s == s' && t == t' && p == p' && Same(e, e')
  {
    hide Same, Holds, Dictionaries;
    EnvelopeKeysDiffer();
    var a, b := Envelope(s, t, p, e), Envelope(s', t', p', e');
    JcsUnique.SameObjects(a, b);
    assert |a.entries| == 4 && |b.entries| == 4;
    assert b.entries[0].key == a.entries[0].key && b.entries[1].key == a.entries[1].key;
    assert b.entries[2].key == a.entries[2].key && b.entries[3].key == a.entries[3].key;
    HeldThere(b.entries, a.entries[0], 0);
    HeldThere(b.entries, a.entries[1], 1);
    HeldThere(b.entries, a.entries[2], 2);
    HeldThere(b.entries, a.entries[3], 3);
    SamePrevious(p, p');
    SameScalars(s, s', t, t');
  }

  lemma SameScalars(s: nat, s': nat, t: PyString, t': PyString)
    ensures Same(Int(s), Int(s')) <==> s == s'
    ensures Same(Str(t), Str(t')) <==> t == t'
  {
  }

  /** Two appends that give the same record hash were made at the same place and time, of the same event. */
  lemma EqualHashesEqualEvents(c: Crypto, rows: seq<Row>, at: PyString, event: Value,
                               rows': seq<Row>, at': PyString, event': Value)
    requires Sound(c) && Dictionaries(event) && Dictionaries(event')
    requires NewRow(c, rows, at, event).Ok? && NewRow(c, rows', at', event').Ok?
    requires NewRow(c, rows, at, event).value.recordHash == NewRow(c, rows', at', event').value.recordHash
    ensures NextSequence(rows) == NextSequence(rows') && at == at' && LastHmac(rows) == LastHmac(rows') && Same(event, event')
  {
    hide Same, Text, Canonical, Dictionaries, LinkMac, BodyFree, Envelope, HasHmac;
    var a := Envelope(NextSequence(rows), at, LastHmac(rows), event);
    var b := Envelope(NextSequence(rows'), at', LastHmac(rows'), event');
    EnvelopesAreDictionaries(NextSequence(rows), at, LastHmac(rows), event);
    EnvelopesAreDictionaries(NextSequence(rows'), at', LastHmac(rows'), event');
    JcsUnique.TextIsCompleteInvariant(a, b);
    SameEnvelopes(NextSequence(rows), at, LastHmac(rows), event, NextSequence(rows'), at', LastHmac(rows'), event');
  }

  /** The table holds one row for each event, appended in this order. */
  ghost predicate Holding(c: Crypto, rows: seq<Row>, events: seq<(PyString, Value)>) {
    && |rows| == |events|
    && forall k :: 0 <= k < |rows| ==> NewRow(c, rows[..k], events[k].0, events[k].1) == Ok(rows[k])
  }

  /** The appends that did not fail. */
  function Stored(c: Crypto, rows: seq<Row>, events: seq<(PyString, Value)>): seq<(PyString, Value)>
    decreases |events|
  {
    if events == [] then []
    else
      var r := NewRow(c, rows, events[0].0, events[0].1);
      if r.Ok? then [events[0]] + Stored(c, rows + [r.value], events[1..]) else Stored(c, rows, events[1..])
  }

  /** Every table that appends made holds the events that were stored. */
  lemma {:induction false} AppendsHold(c: Crypto, rows: seq<Row>, before: seq<(PyString, Value)>, events: seq<(PyString, Value)>)
    requires Holding(c, rows, before)
    ensures Holding(c, AppendAll(c, rows, events), before + Stored(c, rows, events))
    decreases |events|
  {
    hide NewRow;
    if events == [] {
      assert before + [] == before;
    } else {
      var r := NewRow(c, rows, events[0].0, events[0].1);
      if r.Ok? {
        var longer := rows + [r.value];
        assert forall k :: 0 <= k <= |rows| ==> longer[..k] == rows[..k];
        assert rows[..|rows|] == rows;
        assert Holding(c, longer, before + [events[0]]);
        AppendsHold(c, longer, before + [events[0]], events[1..]);
        assert (before + [events[0]]) + Stored(c, longer, events[1..]) == before + ([events[0]] + Stored(c, longer, events[1..]));
      } else {
        AppendsHold(c, rows, before, events[1..]);
      }
    }
  }

  lemma {:induction false} HoldingIsChained(c: Crypto, rows: seq<Row>, events: seq<(PyString, Value)>)
    requires Sound(c) && Holding(c, rows, events)
    ensures Chained(c, rows)
    decreases |rows|
  {
    hide NewRow, Sound, Chained;
    if rows == [] {
      EmptyIsChained(c);
    } else {
      var init := rows[..|rows| - 1];
      assert forall k :: 0 <= k < |init| ==> init[..k] == rows[..k];
      HoldingIsChained(c, init, events[..|init|]);
      AppendKeepsChain(c, init, events[|init|].0, events[|init|].1);
      assert rows == init + [rows[|init|]];
    }
  }

  lemma EmptyIsChained(c: Crypto)
    ensures Chained(c, [])
  {
  }

  /** Two appended tables that end in the same HMAC hold, row by row, the same events. */
  lemma LastHmacFixesEvents(c: Crypto, a: seq<Row>, events: seq<(PyString, Value)>, b: seq<Row>, events': seq<(PyString, Value)>)
    requires Sound(c) && Holding(c, a, events) && Holding(c, b, events') && LastHmac(a) == LastHmac(b)
    requires forall k :: 0 <= k < |events| ==> Dictionaries(events[k].1)
    requires forall k :: 0 <= k < |events'| ==> Dictionaries(events'[k].1)
    ensures a == b && |events| == |events'|
    ensures forall k :: 0 <= k < |events| ==> events[k].0 == events'[k].0 && Same(events[k].1, events'[k].1)
  {
    hide NewRow, Sound, Same, Dictionaries, Chained;
    HoldingIsChained(c, a, events);
    HoldingIsChained(c, b, events');
    LastHmacFixesTable(c, a, b);
    forall k | 0 <= k < |events| ensures events[k].0 == events'[k].0 && Same(events[k].1, events'[k].1) {
      EqualHashesEqualEvents(c, a[..k], events[k].0, events[k].1, b[..k], events'[k].0, events'[k].1);
    }
  }
}
