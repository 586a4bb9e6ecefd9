/**
 * The job status enumeration (enums.py) and the JSON encoder hook that
 * renders its members as text.
 */
module Enums {
  import opened Wrappers

  /** The members of `Status`, as declared. */
  datatype Status = Queued | InProgress | Concluded

  /** Every member in declaration order: the iteration order of the enum class. */
  const Members: seq<Status> := [Queued, InProgress, Concluded]

  /** The value assigned to each member; every value is spelled as its member's name. */
  function Value(s: Status): string
  {
    match s
    case Queued => "QUEUED"
    case InProgress => "IN_PROGRESS"
    case Concluded => "CONCLUDED"
  }

  /** Lookup by value, as `Status(v)` does: the member whose value is `v`, if there is one. */
  function FromValue(v: string): (r: Option<Status>)
    ensures r.Some? ==> Value(r.value) == v
    ensures r.None? ==> forall s :: Value(s) != v
  {
    if v == "QUEUED" then Some(Queued)
    else if v == "IN_PROGRESS" then Some(InProgress)
    else if v == "CONCLUDED" then Some(Concluded)
    else None
  }

  /** The enumeration has exactly three members, each listed once. */
  lemma ExactlyThreeMembers()
    ensures |Members| == 3
    ensures forall s: Status :: s in Members
    ensures forall i, j :: 0 <= i < j < |Members| ==> Members[i] != Members[j]
  {
    forall s: Status
      ensures s in Members
    {
      match s
      case Queued => assert Members[0] == s;
      case InProgress => assert Members[1] == s;
      case Concluded => assert Members[2] == s;
    }
  }

  /** Looking up a member's value gives the member back. */
  lemma ValueRoundTrip(s: Status)
    ensures FromValue(Value(s)) == Some(s)
  {
  }

  /** Distinct members have distinct values, so the encoding loses nothing. */
  lemma ValueInjective(a: Status, b: Status)
    ensures Value(a) == Value(b) ==> a == b
  {
  }

  /** What the JSON serializer can hand to the encoder hook: an enum member, or any other object. */
  datatype Obj = EnumMember(member: Status) | OtherObject

  /** What the hook does with an object: emit a string, or defer to the base encoder. */
  datatype Encoded = AsString(text: string) | DelegatedToBase

  /** `StatusEncoder.default`: enum members become their value; everything else is delegated. */
  function EncodeDefault(obj: Obj): (r: Encoded)
    ensures r.AsString? <==> obj.EnumMember?
    ensures r.AsString? ==> r.text == Value(obj.member)
    ensures r.AsString? ==> FromValue(r.text) == Some(obj.member)
  {
    match obj
    case EnumMember(s) =>
      ValueRoundTrip(s);
      AsString(Value(s))
    case OtherObject => DelegatedToBase
  }
}
