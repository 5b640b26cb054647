/** Markdown cards that mix visible text with local images, before and after upload. */
module OutboxCards {
  import opened Options

  /** A piece of one answer in document order. */
  datatype Part = Prose(text: string) | Picture(hash: string, caption: string)

  /** A card element as stored: images are named by ordinal until they are uploaded. */
  datatype Element = Words(text: string) | Slot(ordinal: int)

  datatype CardBody = CardBody(elements: seq<Element>, images: seq<Part>)

  /** What this module does not look into: redaction and visible Markdown, and the JSON size. */
  datatype Rendering = Rendering(visible: string -> string, size: seq<Element> -> nat)

  const SIZE_LIMIT := 18_000

  function Label(p: Part): string
    requires p.Picture?
  {
    "[图片：" + p.caption + "]"
  }

  predicate Shows(images: seq<Part>, hash: string) {
    exists k :: 0 <= k < |images| && images[k].Picture? && images[k].hash == hash
  }

  /** The image part opens a new slot: still active and not shown before. */
  predicate OpensSlot(p: Part, active: set<string>, images: seq<Part>) {
    p.Picture? && p.hash in active && !Shows(images, p.hash)
  }

  function AppendText(r: Rendering, b: CardBody, text: string): CardBody {
    var safe := r.visible(text);
    if safe == "" then b else b.(elements := b.elements + [Words(safe)])
  }

  function AppendPart(r: Rendering, active: set<string>, b: CardBody, p: Part): CardBody {
    if p.Prose? then AppendText(r, b, p.text)
    else if !OpensSlot(p, active, b.images) then AppendText(r, b, Label(p))
    else CardBody(b.elements + [Slot(|b.images| + 1)], b.images + [p])
  }

  function AppendParts(r: Rendering, active: set<string>, parts: seq<Part>): CardBody {
    if parts == [] then CardBody([], [])
    else AppendPart(r, active, AppendParts(r, active, parts[..|parts| - 1]), parts[|parts| - 1])
  }

  predicate HasWords(elements: seq<Element>) {
    exists k :: 0 <= k < |elements| && elements[k].Words?
  }

  function MarkdownCard(r: Rendering, active: set<string>, parts: seq<Part>): Option<CardBody> {
    var b := AppendParts(r, active, parts);
    if !HasWords(b.elements) || b.images == [] || r.size(b.elements) > SIZE_LIMIT then None else Some(b)
  }

  lemma ShowsAppend(images: seq<Part>, p: Part)
    requires p.Picture?
    ensures forall h :: Shows(images + [p], h) <==> Shows(images, h) || h == p.hash
  {
    forall h ensures Shows(images + [p], h) <==> Shows(images, h) || h == p.hash {
      if k :| 0 <= k < |images| && images[k].Picture? && images[k].hash == h {
        assert (images + [p])[k] == images[k];
      }
      if h == p.hash {
        assert (images + [p])[|images|] == p;
      }
    }
  }

  lemma WordsAppend(elements: seq<Element>, e: Element)
    ensures HasWords(elements + [e]) <==> HasWords(elements) || e.Words?
  {
    if k :| 0 <= k < |elements| && elements[k].Words? {
      assert (elements + [e])[k] == elements[k];
    }
    assert (elements + [e])[|elements|] == e;
  }

  method MarkdownCardBody(r: Rendering, active: set<string>, parts: seq<Part>) returns (card: Option<CardBody>)
    ensures card == MarkdownCard(r, active, parts)
  {
    var used: set<string> := {};
    var images: seq<Part> := [];
    var elements: seq<Element> := [];
    var hasVisibleText := false;
    for k := 0 to |parts|
      invariant CardBody(elements, images) == AppendParts(r, active, parts[..k])
      invariant forall h :: h in used <==> Shows(images, h)
      invariant hasVisibleText <==> HasWords(elements)
    {
      hide HasWords, Shows, Label;
      var part := parts[k];
      assert parts[..k + 1][..k] == parts[..k];
      if part.Picture? && part.hash in active && part.hash !in used {
        ShowsAppend(images, part);
        used := used + {part.hash};
        images := images + [part];
        WordsAppend(elements, Slot(|images|));
        elements := elements + [Slot(|images|)];
      } else {
        var safe := r.visible(if part.Prose? then part.text else Label(part));
        if safe != "" {
          hasVisibleText := true;
          WordsAppend(elements, Words(safe));
          elements := elements + [Words(safe)];
        }
      }
    }
    assert parts[..|parts|] == parts;
    if !hasVisibleText || images == [] {
      return None;
    }
    if r.size(elements) > SIZE_LIMIT {
      return None;
    }
    return Some(CardBody(elements, images));
  }

  // ---- Slots and images correspond ----

  function Ordinals(elements: seq<Element>): seq<int> {
    if elements == [] then []
    else Ordinals(elements[..|elements| - 1]) + if elements[|elements| - 1].Slot? then [elements[|elements| - 1].ordinal] else []
  }

  function Range(n: nat): seq<int> {
    seq(n, k => k + 1)
  }

  ghost predicate Matched(b: CardBody, active: set<string>) {
    && Ordinals(b.elements) == Range(|b.images|)
    && (forall k :: 0 <= k < |b.images| ==> b.images[k].Picture? && b.images[k].hash in active)
    && (forall i, j :: 0 <= i < j < |b.images| ==> b.images[i].hash != b.images[j].hash)
  }

  lemma OrdinalsAppend(elements: seq<Element>, e: Element)
    ensures Ordinals(elements + [e]) == Ordinals(elements) + if e.Slot? then [e.ordinal] else []
  {
    assert (elements + [e])[..|elements|] == elements;
  }

  lemma PartKeepsMatched(r: Rendering, active: set<string>, b: CardBody, p: Part)
    requires Matched(b, active)
    ensures Matched(AppendPart(r, active, b, p), active)
  {
    hide Shows, Ordinals, Range, Label;
    var b' := AppendPart(r, active, b, p);
    if b' != b {
      OrdinalsAppend(b.elements, b'.elements[|b.elements|]);
      assert b'.elements == b.elements + [b'.elements[|b.elements|]];
    }
    if OpensSlot(p, active, b.images) {
      RangeAppend(|b.images|);
      NotShown(b.images, p.hash);
    }
  }

  lemma RangeAppend(n: nat)
    ensures Range(n + 1) == Range(n) + [n + 1]
  {
  }

  lemma NotShown(images: seq<Part>, hash: string)
    requires !Shows(images, hash)
    ensures forall k :: 0 <= k < |images| && images[k].Picture? ==> images[k].hash != hash
  {
  }

  /** The slots of a card are numbered 1, 2, ... in document order, one per image, and no image is shown twice. */
  lemma {:induction false} SlotsMatchImages(r: Rendering, active: set<string>, parts: seq<Part>)
    ensures Matched(AppendParts(r, active, parts), active)
    decreases |parts|
  {
    hide Matched, AppendPart;
    if parts == [] {
      NothingMatches(active);
    } else {
      SlotsMatchImages(r, active, parts[..|parts| - 1]);
      PartKeepsMatched(r, active, AppendParts(r, active, parts[..|parts| - 1]), parts[|parts| - 1]);
    }
  }

  lemma NothingMatches(active: set<string>)
    ensures Matched(CardBody([], []), active)
  {
  }

  /** Every picture of the document that is active is shown, in a slot. */
  lemma {:induction false} EveryActivePictureIsShown(r: Rendering, active: set<string>, parts: seq<Part>, p: Part)
    requires p in parts && p.Picture? && p.hash in active
    ensures Shows(AppendParts(r, active, parts).images, p.hash)
    decreases |parts|
  {
    hide Shows;
    var init, last := parts[..|parts| - 1], parts[|parts| - 1];
    var b := AppendParts(r, active, init);
    assert parts == init + [last];
    if p in init {
      EveryActivePictureIsShown(r, active, init, p);
    }
    if OpensSlot(last, active, b.images) {
      ShowsAppend(b.images, last);
    }
  }

  // ---- The card as the document tells it ----

  /** The picture is among the first n parts. */
  ghost predicate Occurs(parts: seq<Part>, n: nat, hash: string)
    requires n <= |parts|
  {
    exists j :: 0 <= j < n && parts[j].Picture? && parts[j].hash == hash
  }

  /** Part k is an active picture, and no earlier part is the same picture. */
  ghost predicate FirstOfPicture(parts: seq<Part>, active: set<string>, k: nat)
    requires k < |parts|
  {
    parts[k].Picture? && parts[k].hash in active && !Occurs(parts, k, parts[k].hash)
  }

  /** The pictures among the first n parts that get a slot. */
  ghost function Pictures(parts: seq<Part>, active: set<string>, n: nat): seq<Part>
    requires n <= |parts|
  {
    if n == 0 then []
    else Pictures(parts, active, n - 1) + if FirstOfPicture(parts, active, n - 1) then [parts[n - 1]] else []
  }

  /** What part k becomes: the slot of its picture, or what is visible of its text or of its caption, if anything is. */
  ghost function Piece(r: Rendering, active: set<string>, parts: seq<Part>, k: nat): seq<Element>
    requires k < |parts|
  {
    if FirstOfPicture(parts, active, k) then [Slot(|Pictures(parts, active, k)| + 1)]
    else
      var words := r.visible(match parts[k] case Prose(text) => text case Picture(_, caption) => "[图片：" + caption + "]");
      if words == "" then [] else [Words(words)]
  }

  ghost function Pieces(r: Rendering, active: set<string>, parts: seq<Part>, n: nat): seq<Element>
    requires n <= |parts|
  {
    if n == 0 then [] else Pieces(r, active, parts, n - 1) + Piece(r, active, parts, n - 1)
  }

  /** Each part of the document in its place: the card's elements and images for every prefix of it. */
  lemma {:induction false} CardTellsDocument(r: Rendering, active: set<string>, parts: seq<Part>, n: nat)
    requires n <= |parts|
    ensures AppendParts(r, active, parts[..n]) == CardBody(Pieces(r, active, parts, n), Pictures(parts, active, n))
    ensures forall h :: Shows(Pictures(parts, active, n), h) <==>
                        h in active && Occurs(parts, n, h)
  {
    hide Shows, Occurs, Label, Piece, OpensSlot, FirstOfPicture, AppendPart;
    if n == 0 {
      assert parts[..0] == [] && Pictures(parts, active, 0) == [];
      forall h ensures !Shows(Pictures(parts, active, 0), h) && !Occurs(parts, 0, h) {
        ShowsNothing();
        NoneOccurs(parts, h);
      }
    } else {
      CardTellsDocument(r, active, parts, n - 1);
      assert parts[..n][..n - 1] == parts[..n - 1] && parts[..n][n - 1] == parts[n - 1];
      PieceIsAppended(r, active, parts, n);
    }
  }

  lemma PieceIsAppended(r: Rendering, active: set<string>, parts: seq<Part>, n: nat)
    requires 0 < n <= |parts|
    requires forall h :: Shows(Pictures(parts, active, n - 1), h) <==>
                         h in active && Occurs(parts, n - 1, h)
    ensures AppendPart(r, active, CardBody(Pieces(r, active, parts, n - 1), Pictures(parts, active, n - 1)), parts[n - 1]) ==
            CardBody(Pieces(r, active, parts, n), Pictures(parts, active, n))
    ensures forall h :: Shows(Pictures(parts, active, n), h) <==>
                        h in active && Occurs(parts, n, h)
  {
    hide Shows;
    var before := Pictures(parts, active, n - 1);
    assert OpensSlot(parts[n - 1], active, before) <==> FirstOfPicture(parts, active, n - 1);
    if parts[n - 1].Picture? { ShowsAppend(before, parts[n - 1]); }
    forall h ensures Occurs(parts, n, h) <==> Occurs(parts, n - 1, h) || (parts[n - 1].Picture? && parts[n - 1].hash == h) {
      OccursStep(parts, n, h);
    }
    hide Occurs;
  }

  lemma OccursStep(parts: seq<Part>, n: nat, h: string)
    requires 0 < n <= |parts|
    ensures Occurs(parts, n, h) <==> Occurs(parts, n - 1, h) || (parts[n - 1].Picture? && parts[n - 1].hash == h)
  {
  }

  lemma NoneOccurs(parts: seq<Part>, h: string)
    ensures !Occurs(parts, 0, h)
  {
  }

  lemma ShowsNothing()
    ensures forall h :: !Shows([], h)
  {
  }

  /** No card exactly when no part leaves words, no picture is active, or what it comes to is too large. */
  lemma NoCardIff(r: Rendering, active: set<string>, parts: seq<Part>)
    ensures MarkdownCard(r, active, parts).None? <==>
            || (forall e :: e in Pieces(r, active, parts, |parts|) ==> e.Slot?)
            || (forall p :: p in parts && p.Picture? ==> p.hash !in active)
            || r.size(Pieces(r, active, parts, |parts|)) > 18_000
  {
    hide Shows, Pieces, Pictures, AppendParts;
    CardTellsDocument(r, active, parts, |parts|);
    assert parts[..|parts|] == parts;
    var images := Pictures(parts, active, |parts|);
    var elements := Pieces(r, active, parts, |parts|);
    if images != [] {
      SlotsMatchImages(r, active, parts);
      assert images[0].Picture?;
      assert Shows(images, images[0].hash) by { ShowsItself(images, 0); }
      var j :| 0 <= j < |parts| && parts[j].Picture? && parts[j].hash == images[0].hash;
      assert parts[j] in parts;
    } else if p :| p in parts && p.Picture? && p.hash in active {
      EveryActivePictureIsShown(r, active, parts, p);
      ShowsNothing();
    }
    assert HasWords(elements) <==> exists e :: e in elements && e.Words? by { WordsAreElements(elements); }
  }

  lemma WordsAreElements(elements: seq<Element>)
    ensures HasWords(elements) <==> exists e :: e in elements && e.Words?
  {
    if e :| e in elements && e.Words? {
      var k :| 0 <= k < |elements| && elements[k] == e;
    }
  }

  lemma ShowsItself(images: seq<Part>, k: nat)
    requires k < |images| && images[k].Picture?
    ensures Shows(images, images[k].hash)
  {
  }

  // ---- Filling the slots with uploaded keys ----

  datatype SentElement = SentWords(text: string) | SentImage(key: string)

  /** Position of the first image without a key. */
  function FirstMissing(keys: seq<Option<string>>): (k: Option<nat>)
    ensures k.Some? ==> k.value < |keys| && keys[k.value].None? && forall j :: 0 <= j < k.value ==> keys[j].Some?
    ensures k.None? ==> forall j :: 0 <= j < |keys| ==> keys[j].Some?
  {
    if keys == [] then None
    else if keys[0].None? then Some(0)
    else
      var k := FirstMissing(keys[1..]);
      assert forall j :: 1 <= j < |keys| ==> keys[j] == keys[1..][j - 1];
      if k.Some? then Some(k.value + 1) else None
  }

  function MissingCount(keys: seq<Option<string>>): nat {
    if keys == [] then 0 else (if keys[0].None? then 1 else 0) + MissingCount(keys[1..])
  }

  lemma {:induction false} SettingKeyLowersMissing(keys: seq<Option<string>>, k: nat, key: string)
    requires k < |keys| && keys[k].None?
    ensures MissingCount(keys[k := Some(key)]) == MissingCount(keys) - 1
    decreases k
  {
    if k > 0 {
      SettingKeyLowersMissing(keys[1..], k - 1, key);
      assert keys[k := Some(key)][1..] == keys[1..][k - 1 := Some(key)];
    } else {
      assert keys[0 := Some(key)][1..] == keys[1..];
    }
  }

  predicate HasKey(keys: seq<Option<string>>, ordinal: int) {
    1 <= ordinal <= |keys| && keys[ordinal - 1].Some?
  }

  function Fill(elements: seq<Element>, keys: seq<Option<string>>): Option<seq<SentElement>> {
    if elements == [] then Some([])
    else
      var init := Fill(elements[..|elements| - 1], keys);
      var last := elements[|elements| - 1];
      if init.None? then None
      else if last.Words? then Some(init.value + [SentWords(last.text)])
      else if HasKey(keys, last.ordinal) then Some(init.value + [SentImage(keys[last.ordinal - 1].value)])
      else None
  }

  /** Filling fails exactly when some slot has no key. */
  lemma {:induction false} FillFailsIff(elements: seq<Element>, keys: seq<Option<string>>)
    ensures Fill(elements, keys).None? <==> exists k :: 0 <= k < |Ordinals(elements)| && !HasKey(keys, Ordinals(elements)[k])
    decreases |elements|
  {
    if elements != [] {
      var os, init := Ordinals(elements), Ordinals(elements[..|elements| - 1]);
      FillFailsIff(elements[..|elements| - 1], keys);
      assert forall k :: 0 <= k < |init| ==> os[k] == init[k];
      if elements[|elements| - 1].Slot? {
        assert os[|init|] == elements[|elements| - 1].ordinal;
      }
    }
  }

  function ImageKeys(sent: seq<SentElement>): seq<string> {
    if sent == [] then []
    else ImageKeys(sent[..|sent| - 1]) + if sent[|sent| - 1].SentImage? then [sent[|sent| - 1].key] else []
  }

  /** The keys shown are those of the ordinals, in their order. */
  ghost predicate KeysShown(shown: seq<string>, ordinals: seq<int>, keys: seq<Option<string>>) {
    && |shown| == |ordinals|
    && forall k :: 0 <= k < |shown| ==> HasKey(keys, ordinals[k]) && shown[k] == keys[ordinals[k] - 1].value
  }

  lemma ShowOneMore(shown: seq<string>, ordinals: seq<int>, keys: seq<Option<string>>, ordinal: int)
    requires KeysShown(shown, ordinals, keys) && HasKey(keys, ordinal)
    ensures KeysShown(shown + [keys[ordinal - 1].value], ordinals + [ordinal], keys)
  {
  }

  /** A filled card shows the keys of its slots in their order. */
  lemma {:induction false} FilledInOrder(elements: seq<Element>, keys: seq<Option<string>>)
    requires Fill(elements, keys).Some?
    ensures KeysShown(ImageKeys(Fill(elements, keys).value), Ordinals(elements), keys)
    decreases |elements|
  {
    hide *;
    UnfoldFill(elements, keys);
    if elements == [] {
      NothingShown(keys);
    } else {
      var init, last := elements[..|elements| - 1], elements[|elements| - 1];
      FilledInOrder(init, keys);
      OrdinalsAppend(init, last);
      assert elements == init + [last];
      var before := Fill(init, keys).value;
      if last.Slot? {
        ImageKeysAppend(before, SentImage(keys[last.ordinal - 1].value));
        ShowOneMore(ImageKeys(before), Ordinals(init), keys, last.ordinal);
      } else {
        ImageKeysAppend(before, SentWords(last.text));
        assert ImageKeys(before) + [] == ImageKeys(before) && Ordinals(init) + [] == Ordinals(init);
      }
    }
  }

  /** What is sent has the words and, for each slot, the key of its image, each in the place it has in the card. */
  lemma {:induction false} FilledElementwise(elements: seq<Element>, keys: seq<Option<string>>, k: nat)
    requires Fill(elements, keys).Some? && k < |elements|
    ensures var sent := Fill(elements, keys).value;
            && |sent| == |elements|
            && (elements[k].Words? ==> sent[k] == SentWords(elements[k].text))
            && (elements[k].Slot? ==>
                  1 <= elements[k].ordinal <= |keys| && keys[elements[k].ordinal - 1] != None
                  && sent[k] == SentImage(keys[elements[k].ordinal - 1].value))
    decreases |elements|
  {
    hide *;
    UnfoldFill(elements, keys);
    var init := elements[..|elements| - 1];
    UnfoldFill(init, keys);
    if |init| > 0 {
      FilledElementwise(init, keys, if k < |init| then k else 0);
    }
  }

  lemma UnfoldFill(elements: seq<Element>, keys: seq<Option<string>>)
    requires Fill(elements, keys).Some?
    ensures elements == [] ==> Fill(elements, keys).value == []
    ensures elements != [] ==>
              var init, last := Fill(elements[..|elements| - 1], keys), elements[|elements| - 1];
              && init.Some?
              && (last.Slot? ==>
                    && HasKey(keys, last.ordinal) && 1 <= last.ordinal <= |keys| && keys[last.ordinal - 1].Some?
                    && Fill(elements, keys).value == init.value + [SentImage(keys[last.ordinal - 1].value)])
              && (last.Words? ==> Fill(elements, keys).value == init.value + [SentWords(last.text)])
  {
  }

  lemma NothingShown(keys: seq<Option<string>>)
    ensures KeysShown(ImageKeys([]), Ordinals([]), keys)
  {
  }

  lemma ImageKeysAppend(sent: seq<SentElement>, e: SentElement)
    ensures ImageKeys(sent + [e]) == ImageKeys(sent) + if e.SentImage? then [e.key] else []
  {
    assert (sent + [e])[..|sent|] == sent;
  }

  /** Once every image of a built card has its key, the card is sent with all of them, in document order. */
  lemma BuiltCardIsSentWhole(r: Rendering, active: set<string>, parts: seq<Part>, keys: seq<Option<string>>)
    requires |keys| == |AppendParts(r, active, parts).images|
    requires FirstMissing(keys).None?
    ensures var sent := Fill(AppendParts(r, active, parts).elements, keys);
            && sent.Some?
            && |ImageKeys(sent.value)| == |keys|
            && forall k :: 0 <= k < |keys| ==> Some(ImageKeys(sent.value)[k]) == keys[k]
  {
    hide Fill, AppendParts, ImageKeys, FirstMissing;
    var elements := AppendParts(r, active, parts).elements;
    SlotsMatchImages(r, active, parts);
    FillFailsIff(elements, keys);
    if Fill(elements, keys).Some? {
      FilledInOrder(elements, keys);
    }
  }
}
