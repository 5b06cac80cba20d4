/** The member directory: an in-memory list that registration appends to
    and `setLastBirthdaySent` updates in place. */
module Members {

  import opened JsValue
  import opened Seqs

  /** A stored member. `dob` is "" when the member gave none. */
  datatype Member = Member(
    id: int,
    name: string,
    phone: string,
    dob: string,
    kind: string,
    lastBirthdaySent: Option<string>)

  /** A registration body: `id` is present only when the body carries one,
      and "" stands for a text field that is absent or empty. */
  datatype MemberData = MemberData(
    id: Option<int>,
    name: string,
    phone: string,
    dob: string,
    kind: string,
    lastBirthdaySent: string)

  const DefaultKind: string := "new"

  function MemberId(m: Member): int {
    m.id
  }

  /** `{ id, ...data }` with the defaults for a falsy `type` and a falsy
      `lastBirthdaySent`. An `id` in the body overrides the computed one, so
      only a body without `id` is sure to get an id above every existing one:
      1 in an empty directory, otherwise one more than the largest id. */
  function NewMember(ms: seq<Member>, data: MemberData): (m: Member)
    ensures data.id.None? ==> forall i :: 0 <= i < |ms| ==> ms[i].id < m.id
    ensures data.id.None? && ms == [] ==> m.id == 1
    ensures data.id.None? && ms != [] ==> exists i :: 0 <= i < |ms| && ms[i].id == m.id - 1
    ensures data.id.Some? ==> m.id == data.id.value
    ensures m.name == data.name && m.phone == data.phone && m.dob == data.dob
    ensures data.kind != "" ==> m.kind == data.kind
    ensures data.kind == "" ==> m.kind == DefaultKind
    ensures data.lastBirthdaySent != "" ==> m.lastBirthdaySent == Some(data.lastBirthdaySent)
    ensures data.lastBirthdaySent == "" ==> m.lastBirthdaySent == None
  {
    Member(
      if data.id.Some? then data.id.value else NextId(Ids(ms, MemberId)),
      data.name,
      data.phone,
      data.dob,
      if data.kind == "" then DefaultKind else data.kind,
      if data.lastBirthdaySent == "" then None else Some(data.lastBirthdaySent))
  }

  /** `ms.find(x => x.id === id)`, as a position. */
  function FirstWithId(ms: seq<Member>, id: int): (r: Option<nat>)
    ensures r.Some? ==> r.value < |ms| && ms[r.value].id == id && forall j :: 0 <= j < r.value ==> ms[j].id != id
    ensures r.None? ==> forall j :: 0 <= j < |ms| ==> ms[j].id != id
  {
    FindIndex(ms, (m: Member) => m.id == id)
  }

  /** The directory after `setLastBirthdaySent(id, date)`: the first member
      with that id, and only its `lastBirthdaySent`, is changed. */
  function WithLastSent(ms: seq<Member>, id: int, date: Option<string>): (r: seq<Member>)
    ensures |r| == |ms|
    ensures forall j :: 0 <= j < |ms| ==> r[j].(lastBirthdaySent := ms[j].lastBirthdaySent) == ms[j]
    ensures forall j :: 0 <= j < |ms| && FirstWithId(ms, id) != Some(j) ==> r[j] == ms[j]
    ensures FirstWithId(ms, id).Some? ==> r[FirstWithId(ms, id).value].lastBirthdaySent == date
  {
    match FirstWithId(ms, id)
    case None => ms
    case Some(k) => ms[k := ms[k].(lastBirthdaySent := date)]
  }

  /** An unknown id changes nothing. */
  lemma UnknownIdChangesNothing(ms: seq<Member>, id: int, date: Option<string>)
    requires forall j :: 0 <= j < |ms| ==> ms[j].id != id
    ensures WithLastSent(ms, id, date) == ms
  {
  }

  /** The module-level `members` array. */
  class MemberStore {
    var members: seq<Member>

    /** The directory as loaded from disk. */
    constructor (loaded: seq<Member>)
      ensures members == loaded
    {
      members := loaded;
    }

    /** `registerMember(data)`: appends exactly one member at the end and
        returns it; earlier members are untouched. */
    method RegisterMember(data: MemberData) returns (m: Member)
      modifies this
      ensures m == NewMember(old(members), data)
      ensures members == old(members) + [m]
    {
      m := NewMember(members, data);
      members := members + [m];
    }

    /** `getAllMembers()`: the directory itself, in insertion order. */
    method GetAllMembers() returns (ms: seq<Member>)
      ensures ms == members
    {
      ms := members;
    }

    /** `setLastBirthdaySent(id, date)`: stamps the first member with that id
        and returns it; for an unknown id returns nothing and changes nothing. */
    method SetLastBirthdaySent(id: int, date: Option<string>) returns (r: Option<Member>)
      modifies this
      ensures members == WithLastSent(old(members), id, date)
      ensures r.Some? <==> FirstWithId(old(members), id).Some?
      ensures r.Some? ==> r.value == members[FirstWithId(old(members), id).value]
    {
      match FirstWithId(members, id) {
        case None =>
          r := None;
        case Some(k) =>
          var m := members[k].(lastBirthdaySent := date);
          members := members[k := m];
          r := Some(m);
      }
    }
  }
}
