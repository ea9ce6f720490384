/**
 The reply to a DeleteObjects request of S3, read as a stream of XML events: the keys that could not be
 deleted, except those that were already gone.
 */
module S3DeleteReply {
  import opened Basics

  /** What the XML reader reports. `Stop` is the end of the input or text that is not well formed. */
  datatype Event =
    | Start(name: string)
    | Text(text: string)
    | Reference(text: string)    // an entity, resolved
    | End(name: string)
    | Other
    | Stop

  /** A key that could not be deleted, and why. */
  type Failure = (string, string)

  datatype Reader = Reader(inError: bool, tag: string, key: string, code: string)

  const FRESH := Reader(false, "", "", "")

  function Append(r: Reader, text: string): Reader {
    if r.inError && r.tag == "Key" then r.(key := r.key + text)
    else if r.inError && r.tag == "Code" then r.(code := r.code + text)
    else r
  }

  function Step(r: Reader, e: Event): (Reader, seq<Failure>) {
    match e
    case Start(name) =>
      (if name == "Error" then Reader(true, name, "", "") else r.(tag := name), [])
    case Text(text) => (Append(r, text), [])
    case Reference(text) => (Append(r, text), [])
    case End(name) =>
      if name != "Error" then (r.(tag := ""), [])
      else if r.code == "NoSuchKey" then (r.(inError := false, tag := ""), [])
      else (Reader(false, "", "", ""), [(r.key, r.code)])
    case _ => (r, [])
  }

  function Read(r: Reader, events: seq<Event>): (Reader, seq<Failure>)
    decreases |events|
  {
    if events == [] || events[0].Stop? then (r, [])
    else
      var (next, found) := Step(r, events[0]);
      var (last, more) := Read(next, events[1..]);
      (last, found + more)
  }

  function Failures(events: seq<Event>): seq<Failure> {
    Read(FRESH, events).1
  }

  lemma ReadNext(r: Reader, events: seq<Event>, i: nat)
    requires i < |events| && !events[i].Stop?
    ensures var (next, found) := Step(r, events[i]);
            Read(r, events[i..]).1 == found + Read(next, events[i + 1..]).1
  {
    assert events[i..][0] == events[i] && events[i..][1..] == events[i + 1..];
    hide Step;
  }

  lemma ReadEnd(r: Reader, events: seq<Event>, i: nat)
    requires i <= |events| && (i < |events| ==> events[i].Stop?)
    ensures Read(r, events[i..]) == (r, [])
  {
  }

  /** The event loop. */
  method ParseDeleteErrors(events: seq<Event>) returns (errors: seq<Failure>)
    ensures errors == Failures(events)
  {
    hide Read;
    var inError, tag, key, code := false, "", "", "";
    errors := [];
    var i := 0;
    while i < |events| && !events[i].Stop?
      invariant 0 <= i <= |events|
      invariant errors + Read(Reader(inError, tag, key, code), events[i..]).1 == Failures(events)
    {
      ReadNext(Reader(inError, tag, key, code), events, i);
      match events[i] {
        case Start(name) =>
          tag := name;
          if tag == "Error" {
            inError, key, code := true, "", "";
          }
        case Text(text) =>
          if inError && tag == "Key" {
            key := key + text;
          } else if inError && tag == "Code" {
            code := code + text;
          }
        case Reference(text) =>
          if inError && tag == "Key" {
            key := key + text;
          } else if inError && tag == "Code" {
            code := code + text;
          }
        case End(name) =>
          if name == "Error" {
            inError := false;
            if code != "NoSuchKey" {
              errors := errors + [(key, code)];
              key, code := "", "";
            }
          }
          tag := "";
        case _ =>
      }
      i := i + 1;
    }
    ReadEnd(Reader(inError, tag, key, code), events, i);
  }

  // ----- what a reply says -----

  /** A child element: its name, and its content in the pieces the reader reports, text or entities. */
  datatype Field = Field(name: string, pieces: seq<(bool, string)>)

  /** An entry of the reply: a deleted key, or one that could not be deleted. */
  datatype Item = Item(failed: bool, fields: seq<Field>)

  function PieceEvents(pieces: seq<(bool, string)>): seq<Event> {
    if pieces == [] then []
    else [if pieces[0].0 then Reference(pieces[0].1) else Text(pieces[0].1)] + PieceEvents(pieces[1..])
  }

  function FieldEvents(fields: seq<Field>): seq<Event> {
    if fields == [] then []
    else ([Start(fields[0].name)] + PieceEvents(fields[0].pieces) + [End(fields[0].name)]) + FieldEvents(fields[1..])
  }

  function ItemName(item: Item): string {
    if item.failed then "Error" else "Deleted"
  }

  function ItemEvents(items: seq<Item>): seq<Event> {
    if items == [] then []
    else ([Start(ItemName(items[0]))] + FieldEvents(items[0].fields) + [End(ItemName(items[0]))]) + ItemEvents(items[1..])
  }

  function Content(pieces: seq<(bool, string)>): string {
    if pieces == [] then "" else pieces[0].1 + Content(pieces[1..])
  }

  /** The content of the fields of that name. */
  function Value(fields: seq<Field>, name: string): string {
    if fields == [] then ""
    else (if fields[0].name == name then Content(fields[0].pieces) else "") + Value(fields[1..], name)
  }

  /** The entries that failed for another reason than that the key was gone, in order. */
  function Refused(items: seq<Item>): seq<Failure> {
    if items == [] then []
    else
      var item := items[0];
      (if item.failed && Value(item.fields, "Code") != "NoSuchKey"
       then [(Value(item.fields, "Key"), Value(item.fields, "Code"))] else []) + Refused(items[1..])
  }

  /** No field is called like an entry that failed. */
  ghost predicate Plain(items: seq<Item>) {
    forall item, f :: item in items && f in item.fields ==> f.name != "Error"
  }

  // ----- a reply is read back exactly -----

  ghost predicate NoStop(events: seq<Event>) {
    forall e :: e in events ==> !e.Stop?
  }

  lemma {:induction false} ReadConcat(r: Reader, a: seq<Event>, b: seq<Event>)
    requires NoStop(a)
    ensures var (mid, first) := Read(r, a);
            var (last, second) := Read(mid, b);
            Read(r, a + b) == (last, first + second)
    decreases |a|
  {
    if a == [] {
      assert a + b == b;
      assert [] + Read(r, b).1 == Read(r, b).1;
    } else {
      assert a[0] in a && NoStop(a[1..]);
      assert (a + b)[1..] == a[1..] + b;
      var (next, found) := Step(r, a[0]);
      hide Step;
      ReadConcat(next, a[1..], b);
      var (mid, first) := Read(next, a[1..]);
      assert (a + b)[0] == a[0] && found + (first + Read(mid, b).1) == found + first + Read(mid, b).1;
    }
  }

  lemma ReadOne(r: Reader, e: Event)
    requires !e.Stop?
    ensures Read(r, [e]) == Step(r, e)
  {
    assert [e][1..] == [];
    assert Step(r, e).1 + [] == Step(r, e).1;
  }

  lemma {:induction false} PiecesNoStop(pieces: seq<(bool, string)>)
    ensures NoStop(PieceEvents(pieces))
  {
    if pieces != [] {
      PiecesNoStop(pieces[1..]);
    }
  }

  lemma {:induction false} FieldsNoStop(fields: seq<Field>)
    ensures NoStop(FieldEvents(fields))
  {
    if fields != [] {
      PiecesNoStop(fields[0].pieces);
      FieldsNoStop(fields[1..]);
    }
  }

  lemma {:induction false} ItemsNoStop(items: seq<Item>)
    ensures NoStop(ItemEvents(items))
  {
    if items != [] {
      FieldsNoStop(items[0].fields);
      ItemsNoStop(items[1..]);
    }
  }

  /** However an element's content is cut up, it is read as a whole. */
  lemma {:induction false} ReadPieces(r: Reader, pieces: seq<(bool, string)>)
    ensures Read(r, PieceEvents(pieces)) == (Append(r, Content(pieces)), [])
    decreases |pieces|
  {
    if pieces == [] {
      assert r.key + "" == r.key && r.code + "" == r.code;
    } else {
      var e := if pieces[0].0 then Reference(pieces[0].1) else Text(pieces[0].1);
      var next := Append(r, pieces[0].1);
      ReadOne(r, e);
      assert PieceEvents(pieces) == [e] + PieceEvents(pieces[1..]);
      AppendTwice(r, pieces[0].1, Content(pieces[1..]));
      ReadPieces(next, pieces[1..]);
      var none: seq<Failure> := [];
      assert none + none == none;
      hide Append, Read, PieceEvents;
      ReadConcat(r, [e], PieceEvents(pieces[1..]));
    }
  }

  lemma AppendTwice(r: Reader, a: string, b: string)
    ensures Append(Append(r, a), b) == Append(r, a + b)
  {
    assert r.key + a + b == r.key + (a + b) && r.code + a + b == r.code + (a + b);
  }

  lemma ReadField(r: Reader, f: Field)
    requires f.name != "Error"
    ensures Read(r, [Start(f.name)] + PieceEvents(f.pieces) + [End(f.name)])
              == (Append(r.(tag := f.name), Content(f.pieces)).(tag := ""), [])
  {
    var opened_ := r.(tag := f.name);
    ReadOne(r, Start(f.name));
    PiecesNoStop(f.pieces);
    ReadPieces(opened_, f.pieces);
    var filled := Append(opened_, Content(f.pieces));
    ReadOne(filled, End(f.name));
    assert Step(filled, End(f.name)) == (filled.(tag := ""), []);
    var none: seq<Failure> := [];
    assert none + none == none;
    FieldOpens(f);
    hide Read, PieceEvents, Append, Step;
    ReadConcat(r, [Start(f.name)], PieceEvents(f.pieces));
    ReadConcat(r, [Start(f.name)] + PieceEvents(f.pieces), [End(f.name)]);
  }

  lemma FieldOpens(f: Field)
    ensures NoStop([Start(f.name)]) && NoStop([Start(f.name)] + PieceEvents(f.pieces))
    ensures NoStop([Start(f.name)] + PieceEvents(f.pieces) + [End(f.name)])
  {
    PiecesNoStop(f.pieces);
  }

  /** Inside an entry that failed the key and the code grow by what the fields hold; elsewhere nothing does. */
  lemma {:induction false} ReadFields(r: Reader, fields: seq<Field>)
    requires forall f :: f in fields ==> f.name != "Error"
    ensures var (last, found) := Read(r, FieldEvents(fields));
            && found == []
            && last.inError == r.inError && (fields != [] ==> last.tag == "") && (fields == [] ==> last == r)
            && last.key == (if r.inError then r.key + Value(fields, "Key") else r.key)
            && last.code == (if r.inError then r.code + Value(fields, "Code") else r.code)
    decreases |fields|
  {
    if fields == [] {
      assert r.key + "" == r.key && r.code + "" == r.code;
    } else {
      var f := fields[0];
      assert f in fields && forall g :: g in fields[1..] ==> g in fields;
      var head := [Start(f.name)] + PieceEvents(f.pieces) + [End(f.name)];
      ReadField(r, f);
      FieldOpens(f);
      var next := Append(r.(tag := f.name), Content(f.pieces)).(tag := "");
      ReadFields(next, fields[1..]);
      ReadConcat(r, head, FieldEvents(fields[1..]));
      FieldGrows(r, fields);
      hide Read, PieceEvents, Append, Content;
    }
  }

  lemma FieldGrows(r: Reader, fields: seq<Field>)
    requires fields != []
    ensures var f := fields[0];
            var next := Append(r.(tag := f.name), Content(f.pieces)).(tag := "");
            && next.inError == r.inError
            && (!r.inError ==> next.key == r.key && next.code == r.code)
            && (r.inError ==> next.key + Value(fields[1..], "Key") == r.key + Value(fields, "Key"))
            && (r.inError ==> next.code + Value(fields[1..], "Code") == r.code + Value(fields, "Code"))
  {
    var f := fields[0];
    var k, c := Value(fields[1..], "Key"), Value(fields[1..], "Code");
    assert r.key + Content(f.pieces) + k == r.key + (Content(f.pieces) + k);
    assert r.code + Content(f.pieces) + c == r.code + (Content(f.pieces) + c);
    assert "" + k == k && "" + c == c;
    hide Content;
  }

  lemma ReadItem(r: Reader, item: Item)
    requires !r.inError && forall f :: f in item.fields ==> f.name != "Error"
    ensures var (last, found) := Read(r, [Start(ItemName(item))] + FieldEvents(item.fields) + [End(ItemName(item))]);
            && !last.inError
            && found == if item.failed && Value(item.fields, "Code") != "NoSuchKey"
                        then [(Value(item.fields, "Key"), Value(item.fields, "Code"))] else []
  {
    var name := ItemName(item);
    ReadOne(r, Start(name));
    var inside := Step(r, Start(name)).0;
    ReadFields(inside, item.fields);
    var filled := Read(inside, FieldEvents(item.fields)).0;
    ReadOne(filled, End(name));
    assert "" + Value(item.fields, "Key") == Value(item.fields, "Key");
    assert "" + Value(item.fields, "Code") == Value(item.fields, "Code");
    FieldsNoStop(item.fields);
    hide Read, FieldEvents, Value;
    ReadConcat(r, [Start(name)], FieldEvents(item.fields));
    ReadConcat(r, [Start(name)] + FieldEvents(item.fields), [End(name)]);
  }

  lemma {:induction false} ReadItems(r: Reader, items: seq<Item>)
    requires !r.inError && Plain(items)
    ensures !Read(r, ItemEvents(items)).0.inError && Read(r, ItemEvents(items)).1 == Refused(items)
    decreases |items|
  {
    if items != [] {
      var item := items[0];
      assert item in items && Plain(items[1..]);
      var head := [Start(ItemName(item))] + FieldEvents(item.fields) + [End(ItemName(item))];
      ReadItem(r, item);
      FieldsNoStop(item.fields);
      assert NoStop(head);
      ReadItems(Read(r, head).0, items[1..]);
      ReadConcat(r, head, ItemEvents(items[1..]));
      hide Read, FieldEvents, Value;
    }
  }

  /** The whole document, up to the end of the input. */
  function Document(items: seq<Item>): seq<Event> {
    [Other, Start("DeleteResult")] + ItemEvents(items) + [End("DeleteResult"), Stop]
  }

  lemma PrologueRead()
    ensures Read(FRESH, [Other, Start("DeleteResult")]) == (Reader(false, "DeleteResult", "", ""), [])
  {
    ReadOne(FRESH, Other);
    ReadOne(FRESH, Start("DeleteResult"));
    ReadConcat(FRESH, [Other], [Start("DeleteResult")]);
    assert [Other] + [Start("DeleteResult")] == [Other, Start("DeleteResult")];
  }

  lemma {:induction false} NothingRefused(items: seq<Item>)
    ensures Refused(items) == [] <==> forall item :: item in items && item.failed ==> Value(item.fields, "Code") == "NoSuchKey"
  {
    if items != [] {
      NothingRefused(items[1..]);
      assert items[0] in items;
    }
  }

  /** A complete reply is read back exactly: the keys that could not be deleted, with their codes, in order;
      so nothing is reported precisely if every failure was that the key was gone. */
  lemma ReplyReadBack(items: seq<Item>)
    requires Plain(items)
    ensures Failures(Document(items)) == Refused(items)
    ensures Failures(Document(items)) == [] <==>
            forall item :: item in items && item.failed ==> Value(item.fields, "Code") == "NoSuchKey"
  {
    NothingRefused(items);
    var prologue: seq<Event> := [Other, Start("DeleteResult")];
    var r := Reader(false, "DeleteResult", "", "");
    PrologueRead();
    ReadItems(r, items);
    ItemsNoStop(items);
    var last := Read(r, ItemEvents(items)).0;
    var epilogue: seq<Event> := [End("DeleteResult"), Stop];
    assert epilogue[1..] == [Stop];
    assert Read(last, epilogue).1 == [];
    assert NoStop(prologue) && NoStop(prologue + ItemEvents(items));
    ReadConcat(FRESH, prologue, ItemEvents(items));
    ReadConcat(FRESH, prologue + ItemEvents(items), epilogue);
    hide Read, ItemEvents, Refused, Value;
  }

  /** A reply that is cut off, or turns malformed, gives a prefix of the failures of the whole. */
  lemma CutOffGivesPrefix(a: seq<Event>, b: seq<Event>)
    requires NoStop(a)
    ensures Failures(a + [Stop]) <= Failures(a + b)
  {
    ReadConcat(FRESH, a, [Stop]);
    ReadConcat(FRESH, a, b);
  }

  /** A reply cut off behind its first entries passes for a success exactly if all failures come later. */
  lemma CutOffPassesExactly(front: seq<Item>, rest: seq<Item>)
    requires Plain(front) && Plain(rest)
    ensures var cut := [Other, Start("DeleteResult")] + ItemEvents(front) + [Stop];
            && Failures(cut) == Refused(front)
            && Refused(front + rest) == Refused(front) + Refused(rest)
            && (Failures(cut) == [] <==> forall item :: item in front && item.failed ==> Value(item.fields, "Code") == "NoSuchKey")
  {
    var prologue: seq<Event> := [Other, Start("DeleteResult")];
    var r := Reader(false, "DeleteResult", "", "");
    PrologueRead();
    ReadItems(r, front);
    ItemsNoStop(front);
    assert NoStop(prologue) && NoStop(prologue + ItemEvents(front));
    ReadConcat(FRESH, prologue, ItemEvents(front));
    ReadConcat(FRESH, prologue + ItemEvents(front), [Stop]);
    RefusedConcat(front, rest);
    NothingRefused(front);
    hide ItemEvents, Refused, Value;
  }

  lemma {:induction false} RefusedConcat(a: seq<Item>, b: seq<Item>)
    ensures Refused(a + b) == Refused(a) + Refused(b)
  {
    if a == [] {
      assert a + b == b;
    } else {
      assert (a + b)[1..] == a[1..] + b;
      RefusedConcat(a[1..], b);
    }
  }
}
