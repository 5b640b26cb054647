/** The form of canonical text: what may stand in it, where its strings end, and how its integers read. */
module JcsForm {
  import opened Jcs
  import opened JcsNumber
  import JcsUnique
  import opened Options

  // ---- Code points ----

  /** Seven code points have a short form, the other control characters are written in hexadecimal, the rest as they are. */
  lemma EscapeForms(c: Codepoint)
    requires !Surrogate(c)
    ensures |Escape(c)| == 2 <==> c in {0x08, 0x09, 0x0A, 0x0C, 0x0D, 0x22, 0x5C}
    ensures |Escape(c)| == 2 ==> Escape(c)[0] == '\\' && Unescaped(Escape(c)[1]) == c
    ensures |Escape(c)| == 6 <==> c < 0x20 && c !in {0x08, 0x09, 0x0A, 0x0C, 0x0D}
    ensures |Escape(c)| == 6 ==>
              Escape(c)[..4] == "\\u00" && 16 * HexValue(Escape(c)[4]) + HexValue(Escape(c)[5]) == c
    ensures |Escape(c)| == 1 <==> c >= 0x20 && c != 0x22 && c != 0x5C
    ensures |Escape(c)| == 1 ==> Escape(c)[0] as int == c
  {
  }

  /** What a backslash and this letter stand for in JSON (section 7 of RFC 8259). */
  function Unescaped(letter: char): int {
    match letter
    case 'b' => 0x08
    case 't' => 0x09
    case 'n' => 0x0A
    case 'f' => 0x0C
    case 'r' => 0x0D
    case '"' => 0x22
    case '\\' => 0x5C
    case _ => -1
  }

  /** The value of a lower-case hexadecimal digit. */
  function HexValue(d: char): int {
    if '0' <= d <= '9' then d as int - '0' as int
    else if 'a' <= d <= 'f' then d as int - 'a' as int + 10
    else -1
  }

  // ---- No raw control character ----

  predicate Printable(s: string) {
    forall k :: 0 <= k < |s| ==> s[k] >= ' '
  }

  lemma EscapePrintable(c: Codepoint)
    requires !Surrogate(c)
    ensures Printable(Escape(c))
  {
  }

  lemma {:induction false} EscapesPrintable(s: PyString)
    requires Unicode(s)
    ensures Printable(Escapes(s))
    decreases |s|
  {
    hide Escape;
    if s != [] {
      EscapePrintable(s[0]);
      EscapesPrintable(s[1..]);
    }
  }

  lemma {:induction false} DigitsPrintable(n: nat)
    ensures Printable(Digits(n))
  {
    if n >= 10 { DigitsPrintable(n / 10); }
  }

  lemma {:induction false} JoinPrintable(texts: seq<string>)
    requires forall k :: 0 <= k < |texts| ==> Printable(texts[k])
    ensures Printable(Join(texts))
    decreases |texts|
  {
    if |texts| > 1 { JoinPrintable(texts[1..]); }
  }

  lemma {:induction false} MembersPrintable(entries: seq<Entry>)
    requires forall k :: 0 <= k < |entries| ==> Unicode(entries[k].key) && Canonical(entries[k].value)
    requires forall i, j :: 0 <= i < j < |entries| ==> entries[i].key != entries[j].key
    requires forall k :: 0 <= k < |entries| ==> Printable(Text(entries[k].value))
    ensures Printable(Join(MemberTexts(Sorted(Members(entries)))))
  {
    hide Text, Canonical, Sorted, Join, Printable, Escapes;
    var ms := Members(entries);
    JcsUnique.SortedKeeps(ms);
    var texts := MemberTexts(Sorted(ms));
    forall k | 0 <= k < |texts| ensures Printable(texts[k]) {
      var m := Sorted(ms)[k];
      assert m in ms;
      MemberPrintable(m);
    }
    JoinPrintable(texts);
  }

  lemma MemberPrintable(m: Member)
    requires Unicode(m.key) && Printable(m.text)
    ensures Printable(MemberText(m))
  {
    EscapesPrintable(m.key);
  }

  lemma LiteralsPrintable()
    ensures Printable("null") && Printable("true") && Printable("false")
    ensures Printable("[") && Printable("]") && Printable("{") && Printable("}")
  {
  }

  lemma QuotedPrintable(s: PyString)
    requires Unicode(s)
    ensures Printable(Quoted(s))
  {
    EscapesPrintable(s);
  }

  lemma IntPrintable(n: int)
    ensures Printable(IntText(n))
  {
    DigitsPrintable(if n < 0 then -n else n);
  }

  lemma EnclosedPrintable(a: string, b: string, c: string)
    requires Printable(a) && Printable(b) && Printable(c)
    ensures Printable(a + b + c)
  {
  }

  /** Canonical text holds no raw control character. */
  lemma {:induction false} TextIsPrintable(v: Value)
    requires Canonical(v) && Dictionaries(v)
    ensures Printable(Text(v))
    decreases v
  {
    hide Printable, Join, Sorted, Escapes;
    LiteralsPrintable();
    match v
    case Str(s) => QuotedPrintable(s);
    case Int(n) => IntPrintable(n);
    case Arr(items, _) =>
      forall k | 0 <= k < |items| ensures Printable(Text(items[k])) {
        TextIsPrintable(items[k]);
      }
      JoinPrintable(Texts(items));
      EnclosedPrintable("[", Join(Texts(items)), "]");
    case Obj(entries) =>
      forall k | 0 <= k < |entries| ensures Printable(Text(entries[k].value)) {
        TextIsPrintable(entries[k].value);
      }
      MembersPrintable(entries);
      EnclosedPrintable("{", Join(MemberTexts(Sorted(Members(entries)))), "}");
    case _ =>
  }

  // ---- Where a string ends ----

  /** Position of the first quote at or after i that no backslash precedes, reading escapes from the left. */
  function ClosingQuote(t: string, i: nat): nat
    decreases |t| - i
  {
    if i >= |t| then i
    else if t[i] == '\\' then ClosingQuote(t, i + 2)
    else if t[i] == '"' then i
    else ClosingQuote(t, i + 1)
  }

  lemma SkipsEscape(before: string, c: Codepoint, after: string)
    requires !Surrogate(c)
    ensures ClosingQuote(before + Escape(c) + after, |before|) == ClosingQuote(before + Escape(c) + after, |before| + |Escape(c)|)
  {
    var t, i, e := before + Escape(c) + after, |before|, Escape(c);
    assert forall k :: 0 <= k < |e| ==> t[i + k] == e[k];
    EscapeForms(c);
    if |e| == 6 {
      assert t[i + 2] != '\\' && t[i + 2] != '"' && t[i + 3] != '\\' && t[i + 3] != '"';
      assert t[i + 4] != '\\' && t[i + 4] != '"' && t[i + 5] != '\\' && t[i + 5] != '"';
      assert ClosingQuote(t, i) == ClosingQuote(t, i + 2) == ClosingQuote(t, i + 3);
      assert ClosingQuote(t, i + 3) == ClosingQuote(t, i + 4) == ClosingQuote(t, i + 5);
    }
  }

  /** A quoted string ends where a reader expects it: every quote and backslash inside is escaped. */
  lemma {:induction false} StringEndsAtItsQuote(before: string, s: PyString, after: string)
    requires Unicode(s)
    ensures ClosingQuote(before + Escapes(s) + "\"" + after, |before|) == |before| + |Escapes(s)|
    decreases |s|
  {
    hide Escape;
    var t := before + Escapes(s) + "\"" + after;
    if s != [] {
      var e, rest := Escape(s[0]), Escapes(s[1..]);
      assert t == before + e + (rest + "\"" + after);
      assert t == (before + e) + rest + "\"" + after;
      SkipsEscape(before, s[0], rest + "\"" + after);
      StringEndsAtItsQuote(before + e, s[1..], after);
    }
  }

  // ---- Literals and integers ----

  /** Integers are written in decimal, without leading zeros, and read as themselves. */
  lemma {:induction false} DigitsDenote(n: nat)
    ensures AllDigits(Digits(n)) && Nat(Digits(n)) == n
    ensures Digits(n)[0] == '0' <==> n == 0
    ensures n == 0 ==> |Digits(n)| == 1
  {
    if n >= 10 {
      DigitsDenote(n / 10);
      var init := Digits(n / 10);
      assert Digits(n)[..|Digits(n)| - 1] == init;
    } else {
      assert Nat("") == 0;
      assert Digits(n)[..0] == "";
    }
  }

  /** The texts of scalars. */
  lemma ScalarForms(n: int)
    requires SafeInteger(n)
    ensures Canonicalize(Null) == Some("null") && Canonicalize(Bool(true)) == Some("true") && Canonicalize(Bool(false)) == Some("false")
    ensures var text := Canonicalize(Int(n)).value;
            if n < 0 then text[0] == '-' && AllDigits(text[1..]) && Nat(text[1..]) == -n
            else AllDigits(text) && Nat(text) == n
  {
    hide Digits, Nat;
    DigitsDenote(if n < 0 then -n else n);
    assert n < 0 ==> IntText(n)[1..] == Digits(-n);
  }

  /** Integers are accepted exactly inside of plus and minus two to the 53rd. */
  lemma IntegerIsCanonicalIff(n: int)
    ensures Canonicalize(Int(n)).Some? <==> -0x20_0000_0000_0000 < n < 0x20_0000_0000_0000
  {
  }
}
