/** The quarantine list (parser.go: isQuarantined, isExpired). The list is
    the decoded YAML document; its values are modelled as an untyped tree so
    that the run-time type checks of the source stay visible. */
module Quarantine {
  import opened Wrappers
  import opened Dates

  /** A decoded YAML value: a string, a list, a mapping, or anything else
      (numbers, booleans, null). Mapping keys that are not strings can never
      be looked up by the names below, so mappings are keyed by strings. */
  datatype Value = Str(s: string) | List(items: seq<Value>) | Map(fields: map<string, Value>) | Other

  /** The document root, a mapping from string keys. */
  type Document = map<string, Value>

  const QuarantineKey: string := "quarantine_tests"

  /** The entries under "quarantine_tests", when that key holds a list. */
  function Entries(doc: Document): Option<seq<Value>> {
    if QuarantineKey in doc && doc[QuarantineKey].List? then Some(doc[QuarantineKey].items) else None
  }

  /** The string stored under `key` in a mapping, if there is one. */
  function StrField(fields: map<string, Value>, key: string): Option<string> {
    if key in fields && fields[key].Str? then Some(fields[key].s) else None
  }

  /** The identifier an entry quarantines: its classname, a dot, and its name,
      when the entry is a mapping whose "classname" and "name" are strings. */
  function EntryId(entry: Value): Option<string> {
    if entry.Map? then
      match (StrField(entry.fields, "classname"), StrField(entry.fields, "name"))
      case (Some(c), Some(n)) => Some(c + "." + n)
      case _ => None
    else None
  }

  predicate Matches(entry: Value, id: string) {
    EntryId(entry) == Some(id)
  }

  /** A test is quarantined when the list holds some entry naming it. */
  predicate Quarantined(id: string, doc: Document) {
    match Entries(doc)
    case None => false
    case Some(entries) => exists k :: 0 <= k < |entries| && Matches(entries[k], id)
  }

  /** The date stored as a string under `key` that parses as YYYY-MM-DD. */
  function DateField(fields: map<string, Value>, key: string): Option<Date> {
    match StrField(fields, key)
    case None => None
    case Some(s) => ParseDate(s)
  }

  /** `now` lies before the midnight that starts `start` or after the
      midnight that starts `end`. */
  predicate OutsideWindow(now: Instant, start: Date, end: Date)
    requires ValidDate(start) && ValidDate(end)
  {
    Before(now, Midnight(start)) || After(now, Midnight(end))
  }

  /** An entry that names `id`, has both dates as parsable strings, and
      whose window does not contain `now`. */
  predicate EntryExpired(entry: Value, id: string, now: Instant) {
    Matches(entry, id) &&
    var start := DateField(entry.fields, "start_date");
    var end := DateField(entry.fields, "end_date");
    start.Some? && end.Some? && OutsideWindow(now, start.value, end.value)
  }

  /** A quarantine has expired when some entry naming the test has expired;
      entries with missing or unparsable dates are passed over. */
  predicate Expired(id: string, doc: Document, now: Instant) {
    match Entries(doc)
    case None => false
    case Some(entries) => exists k :: 0 <= k < |entries| && EntryExpired(entries[k], id, now)
  }

  /** isQuarantined: scan the entries and stop at the first that names the test. */
  method IsQuarantined(id: string, doc: Document) returns (b: bool)
    ensures b == Quarantined(id, doc)
  {
    if !(QuarantineKey in doc && doc[QuarantineKey].List?) {
      return false;
    }
    var tests := doc[QuarantineKey].items;
    for i := 0 to |tests|
      invariant forall k :: 0 <= k < i ==> !Matches(tests[k], id)
    {
      var test := tests[i];
      if test.Map? {
        var classname := StrField(test.fields, "classname");
        var name := StrField(test.fields, "name");
        if classname.Some? && name.Some? {
          var quarantinedId := classname.value + "." + name.value;
          if quarantinedId == id {
            return true;
          }
        }
      }
    }
    return false;
  }

  /** isExpired: scan the entries naming the test; skip those whose dates are
      missing or do not parse, and stop at the first whose window excludes now.
      Each call of time.Now in the source is the one instant `now` here. */
  method IsExpired(id: string, doc: Document, now: Instant) returns (b: bool)
    ensures b == Expired(id, doc, now)
  {
    if !(QuarantineKey in doc && doc[QuarantineKey].List?) {
      return false;
    }
    var tests := doc[QuarantineKey].items;
    for i := 0 to |tests|
      invariant forall k :: 0 <= k < i ==> !EntryExpired(tests[k], id, now)
    {
      var test := tests[i];
      EntryExpiredUnfold(test, id, now);
      if test.Map? {
        var classname := StrField(test.fields, "classname");
        var name := StrField(test.fields, "name");
        if classname.Some? && name.Some? {
          var quarantinedId := classname.value + "." + name.value;
          if quarantinedId == id {
            var startDate := StrField(test.fields, "start_date");
            var endDate := StrField(test.fields, "end_date");
            if startDate.Some? && endDate.Some? {
              var startTime := ParseDate(startDate.value);
              if startTime.None? {
                continue;
              }
              var endTime := ParseDate(endDate.value);
              if endTime.None? {
                continue;
              }
              if Before(now, Midnight(startTime.value)) || After(now, Midnight(endTime.value)) {
                return true;
              }
            }
          }
        }
      }
    }
    return false;
  }

  /** EntryExpired spelled out as the checks isExpired makes, in their order. */
  lemma EntryExpiredUnfold(entry: Value, id: string, now: Instant)
    ensures EntryExpired(entry, id, now) <==>
      entry.Map? &&
      StrField(entry.fields, "classname").Some? && StrField(entry.fields, "name").Some? &&
      StrField(entry.fields, "classname").value + "." + StrField(entry.fields, "name").value == id &&
      DateField(entry.fields, "start_date").Some? && DateField(entry.fields, "end_date").Some? &&
      OutsideWindow(now, DateField(entry.fields, "start_date").value, DateField(entry.fields, "end_date").value)
  {
  }

  /** Only a quarantined test can have an expired quarantine. */
  lemma ExpiredIsQuarantined(id: string, doc: Document, now: Instant)
    ensures Expired(id, doc, now) ==> Quarantined(id, doc)
  {
    if Expired(id, doc, now) {
      var k :| 0 <= k < |Entries(doc).value| && EntryExpired(Entries(doc).value[k], id, now);
      assert Matches(Entries(doc).value[k], id);
    }
  }

  /** A quarantine entry as the YAML file spells it. */
  function EntryOf(classname: string, name: string, start: string, end: string): Value {
    Map(map["classname" := Str(classname), "name" := Str(name), "start_date" := Str(start), "end_date" := Str(end)])
  }

  function DocumentOf(entries: seq<Value>): Document {
    map[QuarantineKey := List(entries)]
  }

  /** An entry with well-formed dates quarantines its test, and the quarantine
      has expired exactly when now falls outside its window. */
  lemma SingleEntryWindow(classname: string, name: string, start: Date, end: Date, now: Instant)
    requires ValidDate(start) && ValidDate(end)
    ensures var doc := DocumentOf([EntryOf(classname, name, FormatDate(start), FormatDate(end))]);
      Quarantined(classname + "." + name, doc) &&
      (Expired(classname + "." + name, doc, now) <==> OutsideWindow(now, start, end))
  {
    var entry := EntryOf(classname, name, FormatDate(start), FormatDate(end));
    ParseFormatRoundTrip(start);
    ParseFormatRoundTrip(end);
    assert DateField(entry.fields, "start_date") == Some(start);
    assert DateField(entry.fields, "end_date") == Some(end);
    assert Matches(entry, classname + "." + name);
    assert DocumentOf([entry])[QuarantineKey].items[0] == entry;
  }

  /** The window's edges: the start day counts as inside from its midnight on;
      the end day counts as inside only at its midnight, so a quarantine
      ending today has expired once the day has begun; the calendar day after
      the end is outside. */
  lemma WindowEdges(start: Date, end: Date, now: Instant)
    requires ValidDate(start) && ValidDate(end) && DayNumber(start) < DayNumber(end)
    ensures now.day == DayNumber(start) ==> !OutsideWindow(now, start, end)
    ensures now.day == DayNumber(end) ==> (OutsideWindow(now, start, end) <==> now.sinceMidnight > 0)
    ensures now.day == DayNumber(end) + 1 ==> OutsideWindow(now, start, end)
    ensures (end.year < 9999 || end.month < 12 || end.day < 31) && now.day == DayNumber(NextDate(end))
            ==> OutsideWindow(now, start, end)
    ensures now.day < DayNumber(start) ==> OutsideWindow(now, start, end)
  {
    if end.year < 9999 || end.month < 12 || end.day < 31 {
      NextDateDayNumber(end);
    }
  }

  /** Every entry naming the test is considered, not only the first: an
      entry whose window holds now does not hide a later one that has expired. */
  lemma LaterEntryExpires(classname: string, name: string, start1: Date, end1: Date,
                          start2: Date, end2: Date, now: Instant)
    requires ValidDate(start1) && ValidDate(end1) && ValidDate(start2) && ValidDate(end2)
    requires !OutsideWindow(now, start1, end1) && OutsideWindow(now, start2, end2)
    ensures Expired(classname + "." + name,
                    DocumentOf([EntryOf(classname, name, FormatDate(start1), FormatDate(end1)),
                                EntryOf(classname, name, FormatDate(start2), FormatDate(end2))]),
                    now)
  {
    var e2 := EntryOf(classname, name, FormatDate(start2), FormatDate(end2));
    ParseFormatRoundTrip(start2);
    ParseFormatRoundTrip(end2);
    assert DateField(e2.fields, "start_date") == Some(start2);
    assert DateField(e2.fields, "end_date") == Some(end2);
    assert EntryExpired(e2, classname + "." + name, now);
    var e1 := EntryOf(classname, name, FormatDate(start1), FormatDate(end1));
    assert Entries(DocumentOf([e1, e2])) == Some([e1, e2]);
    assert [e1, e2][1] == e2;
  }

  /** An entry whose start date does not parse never makes the quarantine
      expire, whatever the time, though it still quarantines the test. */
  lemma UnparsableDateNeverExpires(classname: string, name: string, start: string, end: string, now: Instant)
    requires ParseDate(start).None?
    ensures var doc := DocumentOf([EntryOf(classname, name, start, end)]);
      Quarantined(classname + "." + name, doc) && !Expired(classname + "." + name, doc, now)
  {
    var entry := EntryOf(classname, name, start, end);
    assert DateField(entry.fields, "start_date") == None;
    assert Matches(entry, classname + "." + name);
    assert Entries(DocumentOf([entry])) == Some([entry]);
    assert [entry][0] == entry;
  }

  /** Without a "quarantine_tests" list nothing is quarantined or expired. */
  lemma NoListNoQuarantine(id: string, doc: Document, now: Instant)
    requires QuarantineKey !in doc || !doc[QuarantineKey].List?
    ensures !Quarantined(id, doc) && !Expired(id, doc, now)
  {
  }
}
