/**
 * The event vocabulary of the aggregate (`Aggregate.Event`) and its codec.
 *
 * An event is stored as a pair of a tag and a JSON body. The tag is the name
 * of the event's class, so the variant names below are part of the storage
 * format. The JSON body is modelled by the one property the event classes
 * declare; the bytes themselves and the JSON library are not modelled.
 */
module Events {
  import opened Wrappers

  /** The domain events: `Happened` carries nothing, `Snapshotted` carries the whole state. */
  datatype Event = Happened | Snapshotted(happened: bool)

  /**
   * A JSON object as the serializer writes and reads it for these classes:
   * the `Happened` property is absent for a `Happened` event and present for
   * a `Snapshotted` one. Other properties are ignored by the deserializer.
   */
  datatype Body = Body(happened: Option<bool>)

  const HappenedTag: string := "Happened"
  const SnapshottedTag: string := "Snapshotted"

  /** The name of the event's class, which is the tag it is stored under. */
  function TypeName(e: Event): (tag: string)
    ensures tag == HappenedTag <==> e.Happened?
    ensures tag == SnapshottedTag <==> e.Snapshotted?
  {
    match e
    case Happened => HappenedTag
    case Snapshotted(_) => SnapshottedTag
  }

  /** The tags `TryDecode` dispatches on. */
  predicate IsKnownTag(tag: string) {
    tag == HappenedTag || tag == SnapshottedTag
  }

  /**
   * Decodes a stored event. An unknown tag yields `None` (the event is
   * skipped, so that events written by newer code do not break readers);
   * a known tag yields the variant of that name. A `Snapshotted` body that
   * lacks the property deserializes to the property's default, false.
   */
  function TryDecode(tag: string, json: Body): (r: Option<Event>)
    ensures r.None? <==> !IsKnownTag(tag)
    ensures r.Some? ==> TypeName(r.value) == tag
    ensures r.Some? && r.value.Snapshotted? ==> r.value.happened == json.happened.GetOr(false)
  {
    if tag == HappenedTag then Some(Happened)
    else if tag == SnapshottedTag then Some(Snapshotted(json.happened.GetOr(false)))
    else None
  }

  /** Encodes an event as its class name and its JSON body; decoding gives the event back. */
  function Encode(e: Event): (r: (string, Body))
    ensures IsKnownTag(r.0) && r.0 == TypeName(e)
    ensures TryDecode(r.0, r.1) == Some(e)
  {
    match e
    case Happened => (TypeName(e), Body(None))
    case Snapshotted(h) => (TypeName(e), Body(Some(h)))
  }

  /** Two events are stored identically only when they are the same event. */
  lemma EncodeInjective(e1: Event, e2: Event)
    requires Encode(e1) == Encode(e2)
    ensures e1 == e2
  {
  }
}
