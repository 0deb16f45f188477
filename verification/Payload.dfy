/** The log payload as the server reads it, key by key (examples/mock_server.rs:109-139). */
module Payload {
  import opened Options
  import opened Proto
  import Timestamp
  import TP = TimestampProofs

  function Lookup(o: Object, key: string): Option<Json> {
    if o == [] then None else if o[0].0 == key then Some(o[0].1) else Lookup(o[1..], key)
  }

  /** A missing key reads as empty. */
  function GetText(o: Object, key: string): string {
    match Lookup(o, key)
    case Some(Text(text)) => text
    case _ => ""
  }

  function GetTexts(o: Object, key: string): seq<string> {
    match Lookup(o, key)
    case Some(List(texts)) => texts
    case _ => []
  }

  /** What the server has of a payload. */
  function ReadPayload(o: Object): LogPayload {
    LogPayload(GetText(o, "time"), GetText(o, "priority"), GetText(o, "category"), GetText(o, "message"),
               GetText(o, "source"), GetText(o, "original_category"), GetTexts(o, "extra_categories"),
               GetText(o, "color"), GetText(o, "bgcolor"))
  }

  /** The record that it names, if its time is in the layout that the server parses. */
  function ReadRecord(o: Object): Option<Record> {
    var p := ReadPayload(o);
    match TP.ParseTimestamp(p.time)
    case None => None
    case Some(millis) =>
      Some(Record(millis, p.priority, p.category, p.message, p.source, p.originalCategory,
                  p.extraCategories, p.color, p.bgColor))
  }

  lemma {:induction false} LookupAppend(a: Object, b: Object, key: string)
    ensures Lookup(a + b, key) == if Lookup(a, key).Some? then Lookup(a, key) else Lookup(b, key)
  {
    if a == [] {
      assert a + b == b;
    } else {
      assert (a + b)[1..] == a[1..] + b;
      LookupAppend(a[1..], b, key);
    }
  }

  lemma LookupOne(key: string, value: Json, sought: string)
    ensures Lookup([(key, value)], sought) == if key == sought then Some(value) else None
  {
    assert [(key, value)][1..] == [];
  }

  lemma LookupOptional(key: string, value: string, sought: string)
    ensures Lookup(Optional(key, value), sought)
      == if value != "" && key == sought then Some(Text(value)) else None
  {
    if value != "" {
      LookupOne(key, Text(value), sought);
    }
  }

  /** The members that are always there. */
  lemma LookupFirst(p: LogPayload, key: string)
    ensures var o: Object := [("time", Text(p.time)), ("priority", Text(p.priority)),
                              ("category", Text(p.category)), ("message", Text(p.message))];
      Lookup(o, key) ==
        if key == "time" then Some(Text(p.time))
        else if key == "priority" then Some(Text(p.priority))
        else if key == "category" then Some(Text(p.category))
        else if key == "message" then Some(Text(p.message))
        else None
  {
    var o: Object := [("time", Text(p.time)), ("priority", Text(p.priority)),
                      ("category", Text(p.category)), ("message", Text(p.message))];
    assert o[1..][1..] == o[2..] && o[2..][1..] == o[3..] && o[3..] == [o[3]];
    assert Lookup(o[1..], key) == if o[1].0 == key then Some(o[1].1) else Lookup(o[2..], key);
    assert Lookup(o[2..], key) == if o[2].0 == key then Some(o[2].1) else Lookup(o[3..], key);
    LookupOne(o[3].0, o[3].1, key);
  }

  /** Which keys the object of a payload has, and with which values. */
  lemma LookupObject(p: LogPayload, key: string)
    ensures Lookup(p.ToObject(), key) ==
      if key == "time" then Some(Text(p.time))
      else if key == "priority" then Some(Text(p.priority))
      else if key == "category" then Some(Text(p.category))
      else if key == "message" then Some(Text(p.message))
      else if key == "source" && p.source != "" then Some(Text(p.source))
      else if key == "original_category" && p.originalCategory != "" then Some(Text(p.originalCategory))
      else if key == "extra_categories" && p.extraCategories != [] then Some(List(p.extraCategories))
      else if key == "color" && p.color != "" then Some(Text(p.color))
      else if key == "bgcolor" && p.bgColor != "" then Some(Text(p.bgColor))
      else None
  {
    var first: Object := [("time", Text(p.time)), ("priority", Text(p.priority)),
                          ("category", Text(p.category)), ("message", Text(p.message))];
    var source, original := Optional("source", p.source), Optional("original_category", p.originalCategory);
    var extra: Object :=
      if p.extraCategories == [] then [] else [("extra_categories", List(p.extraCategories))];
    var color, bg := Optional("color", p.color), Optional("bgcolor", p.bgColor);
    assert p.ToObject() == first + source + original + extra + color + bg;
    LookupAppend(first + source + original + extra + color, bg, key);
    LookupAppend(first + source + original + extra, color, key);
    LookupAppend(first + source + original, extra, key);
    LookupAppend(first + source, original, key);
    LookupAppend(first, source, key);
    LookupFirst(p, key);
    LookupOptional("source", p.source, key);
    LookupOptional("original_category", p.originalCategory, key);
    LookupOptional("color", p.color, key);
    LookupOptional("bgcolor", p.bgColor, key);
    if extra != [] {
      LookupOne("extra_categories", List(p.extraCategories), key);
    }
  }

  /** Leaving out the empty members loses nothing: read by key, the object gives the payload back. */
  lemma ObjectReadsBack(p: LogPayload)
    ensures ReadPayload(p.ToObject()) == p
  {
    LookupObject(p, "time");
    LookupObject(p, "priority");
    LookupObject(p, "category");
    LookupObject(p, "message");
    LookupObject(p, "source");
    LookupObject(p, "original_category");
    LookupObject(p, "extra_categories");
    LookupObject(p, "color");
    LookupObject(p, "bgcolor");
  }

  /** Every field of a record reaches the server under its own key, whatever the day ... */
  lemma FieldsArrive(r: Record)
    ensures var p := ReadPayload(JsonOf(r));
      && p.time == Timestamp.FormatUtc(r.time)
      && p.priority == r.priority && p.category == r.category && p.message == r.message
      && p.source == r.source && p.originalCategory == r.originalCategory
      && p.extraCategories == r.extraCategories && p.color == r.color && p.bgColor == r.bgColor
  {
    ObjectReadsBack(LogPayload.FromRecord(r));
  }

  /** ... and the server has the record back, its time floored to the millisecond, exactly for
      records from 0000-02-29 to the end of 9999. */
  lemma RecordRoundTripIff(r: Record)
    ensures ReadRecord(JsonOf(r)) == Some(r.(time := TP.FloorMillis(r.time)))
      <==> TP.ReadableDay(TP.FloorDays(r.time))
  {
    FieldsArrive(r);
    TP.FormatRoundTripIff(r.time);
  }
}
