/** The edge-triggered event filter of `trigger_nlp_web` (main.py:56-69).
    A Firestore update event carries the document before (`oldValue`) and
    after (`value`) the change; each side holds a `fields` map whose entries
    are typed wrappers such as `{"stringValue": "scraper_ok"}`. The handler
    goes on only when the `status` field moves INTO `"scraper_ok"`. */
module EventFilter {
  import opened Wrappers

  /** The payload of a typed wrapper entry: a string, or any other JSON value */
  datatype Value = Text(text: string) | NonText

  /** A typed wrapper: wrapper kind (`"stringValue"`, `"integerValue"`, ...) to payload */
  type Wrapper = map<string, Value>

  /** A document's field map: field name to typed wrapper */
  type Fields = map<string, Wrapper>

  /** An entry of a JSON object as the handler meets it: the key is
      missing, or it holds an object, or it holds any other value (`null`,
      a string, a list, a number). Indexing or calling `.get` on the last
      kind raises `TypeError` or `AttributeError`, not `KeyError`. */
  datatype Entry<T> = Absent | Mapping(item: T) | Other

  /** One side of the change; its `fields` entry */
  datatype Document = Document(fields: Entry<Fields>)

  /** The event's data object; its `value` and `oldValue` entries */
  datatype Payload = Payload(value: Entry<Document>, oldValue: Entry<Document>)

  /** The status value that triggers the relay */
  const ScraperOk: string := "scraper_ok"

  /** `fields.get("status", {}).get("stringValue")`: a missing `status`
      entry or a wrapper without `stringValue` gives None, never an error. */
  function StatusOf(fields: Fields): (r: Option<Value>)
    ensures r.Some? <==> "status" in fields && "stringValue" in fields["status"]
    ensures r.Some? ==> r.value == fields["status"]["stringValue"]
  {
    Get(Get(fields, "status").GetOr(map[]), "stringValue")
  }

  /** The document side says, as a string wrapper, that its status is `s` */
  predicate HasStatus(fields: Fields, s: string)
  {
    && "status" in fields
    && "stringValue" in fields["status"]
    && fields["status"]["stringValue"] == Text(s)
  }

  /** Python's `status == 'scraper_ok'` on an optional extracted value */
  predicate IsScraperOk(status: Option<Value>)
  {
    status == Some(Text(ScraperOk))
  }

  /** What the filter decides about an event */
  datatype Decision =
    | Malformed  // a `value`/`oldValue`/`fields` key is missing: the KeyError path
    | Raises     // a non-object met first: the error escapes the handler
    | Ignored    // well formed, but not a transition into "scraper_ok"
    | Triggered  // the status just became "scraper_ok"

  /** `side["fields"]` holds an object: the side the filter can read */
  predicate SideWellFormed(side: Entry<Document>)
  {
    side.Mapping? && side.item.fields.Mapping?
  }

  /** A key on the way to `side["fields"]` is missing */
  predicate SideKeyMissing(side: Entry<Document>)
  {
    side.Absent? || (side.Mapping? && side.item.fields.Absent?)
  }

  /** A value on the way to `side["fields"]`, or that value itself, is not
      an object */
  predicate SideNotMapping(side: Entry<Document>)
  {
    side.Other? || (side.Mapping? && side.item.fields.Other?)
  }

  /** The event data is an object with both field maps the filter reads */
  predicate WellFormed(data: Option<Payload>)
  {
    data.Some? && SideWellFormed(data.value.value) && SideWellFormed(data.value.oldValue)
  }

  /** The new side's field map of a well-formed event */
  function NewFields(data: Option<Payload>): (f: Fields)
    requires WellFormed(data)
    ensures data.value.value == Mapping(Document(Mapping(f)))
  {
    data.value.value.item.fields.item
  }

  /** The old side's field map of a well-formed event */
  function OldFields(data: Option<Payload>): (f: Fields)
    requires WellFormed(data)
    ensures data.value.oldValue == Mapping(Document(Mapping(f)))
  {
    data.value.oldValue.item.fields.item
  }

  /** How a subscript `obj[key]` ends: a `KeyError`, a `TypeError` (the
      object is not an object), or the entry it reaches, which may itself
      be a non-object such as `null` */
  datatype Lookup<T> = KeyErr | TypeErr | Reached(entry: Entry<T>)

  /** `side["fields"]` as Python evaluates it */
  function FieldsEntry(side: Entry<Document>): (r: Lookup<Fields>)
    ensures r == KeyErr <==> SideKeyMissing(side)
    ensures r == TypeErr <==> side.Other?
    ensures r.Reached? <==> side.Mapping? && !side.item.fields.Absent?
    ensures r == Reached(Other) <==> side.Mapping? && side.item.fields.Other?
    ensures r.Reached? && r.entry.Mapping? <==> SideWellFormed(side)
  {
    match side
    case Absent => KeyErr
    case Other => TypeErr
    case Mapping(doc) => if doc.fields.Absent? then KeyErr else Reached(doc.fields)
  }

  /** The filter of main.py:57-69, evaluated in the code's order: read
      `value["fields"]` (line 58), then `oldValue["fields"]` (line 59), then
      `.get` on each (lines 61-62). Only a missing key is caught; `data` that
      is `None`, or a non-object met before any missing key, raises out of
      the handler. It triggers exactly on a transition into "scraper_ok":
      the new side says "scraper_ok" and the old one does not (an old side
      without a status counts as not saying it). */
  function Filter(data: Option<Payload>): (d: Decision)
    ensures d == Triggered || d == Ignored <==> WellFormed(data)
    ensures d == Triggered <==>
      && WellFormed(data)
      && HasStatus(NewFields(data), ScraperOk)
      && !HasStatus(OldFields(data), ScraperOk)
    ensures d == Malformed ==>
      data.Some? && (SideKeyMissing(data.value.value) || SideKeyMissing(data.value.oldValue))
    ensures d == Raises ==>
      data.None? || SideNotMapping(data.value.value) || SideNotMapping(data.value.oldValue)
  {
    match data
    case None => Raises   // `None["value"]`
    case Some(p) =>
      match FieldsEntry(p.value)              // line 58
      case KeyErr => Malformed
      case TypeErr => Raises
      case Reached(after) =>
        match FieldsEntry(p.oldValue)         // line 59
        case KeyErr => Malformed
        case TypeErr => Raises
        case Reached(before) =>
          match (after, before)               // lines 61-62
          case (Mapping(a), Mapping(b)) =>
            if IsScraperOk(StatusOf(a)) && !IsScraperOk(StatusOf(b)) then Triggered
            else Ignored
          case _ => Raises                    // `.get` on a non-object
  }

  /** The `KeyError` handler (main.py:67-69) fails closed: when every value
      on the way is an object, the event is skipped exactly when a key is
      missing. */
  lemma KeyErrorFailsClosed(p: Payload)
    requires !SideNotMapping(p.value) && !SideNotMapping(p.oldValue)
    ensures Filter(Some(p)) == Malformed <==> !WellFormed(Some(p))
  {
  }

  /** When every key is present, an event the filter cannot read raises
      instead of being skipped. */
  lemma NonObjectEscapes(p: Payload)
    requires !SideKeyMissing(p.value) && !SideKeyMissing(p.oldValue)
    ensures Filter(Some(p)) == Raises <==> !WellFormed(Some(p))
  {
  }

  /** Line 58 runs before line 59: a non-object `value` raises whatever
      `oldValue` holds, and a missing `value["fields"]` is skipped whatever
      `oldValue` holds. */
  lemma NewSideReadFirst(p: Payload)
    ensures p.value.Other? ==> Filter(Some(p)) == Raises
    ensures SideKeyMissing(p.value) ==> Filter(Some(p)) == Malformed
  {
  }

  /** Lines 58-59 run before lines 61-62: a new-side `fields` that is not an
      object is only reached by `.get` if `oldValue["fields"]` exists, so a
      missing old side still means the event is skipped. */
  lemma KeyErrorBeforeGet(p: Payload)
    requires p.value.Mapping? && p.value.item.fields.Other?
    ensures SideKeyMissing(p.oldValue) ==> Filter(Some(p)) == Malformed
    ensures !SideKeyMissing(p.oldValue) ==> Filter(Some(p)) == Raises
  {
  }

  /** Edge, not level, triggering: once an event has triggered, a follow-up
      event whose old side is that event's new side (a later update of the
      same document that leaves the status alone) does not trigger again. */
  lemma NoRetrigger(p: Payload, q: Payload)
    requires Filter(Some(p)) == Triggered
    requires q.oldValue == p.value
    ensures Filter(Some(q)) != Triggered
  {
  }

  /** A steady "scraper_ok" status on both sides never triggers. */
  lemma SteadyStateIgnored(p: Payload)
    requires WellFormed(Some(p))
    requires HasStatus(OldFields(Some(p)), ScraperOk)
    ensures Filter(Some(p)) == Ignored
  {
  }

  /** A new side without a string status never triggers, whatever the old
      side holds. */
  lemma MissingNewStatusNeverTriggers(p: Payload)
    requires WellFormed(Some(p))
    requires StatusOf(NewFields(Some(p))).None?
    ensures Filter(Some(p)) != Triggered
  {
  }

  /** An old side without a status does not block the trigger: a missing
      old status is None, which differs from "scraper_ok". */
  lemma MissingOldStatusTriggers(p: Payload)
    requires WellFormed(Some(p))
    requires HasStatus(NewFields(Some(p)), ScraperOk)
    requires "status" !in OldFields(Some(p))
    ensures Filter(Some(p)) == Triggered
  {
  }
}
