/**
 * A shared ledger: its owner, its members, and its conversion to and from a
 * CloudKit record (modelled as a record name, a record type and a field map).
 */
module Groups {
  import opened Wrappers
  import opened Domain

  datatype Group = Group(id: string, name: string, owner: string, members: seq<string>, createdAt: Date)

  /**
   * The memberwise initialiser. The id and the creation date default to a fresh
   * UUID and the current time in the source; both are given here.
   */
  function MakeGroup(id: string, name: string, owner: string, now: Date, members: seq<string> := []): (g: Group)
    ensures g.id == id && g.name == name && g.owner == owner
    ensures g.members == members && g.createdAt == now
  {
    Group(id, name, owner, members, now)
  }

  /** Leaving out the member list gives a group without members. */
  lemma MakeGroupDefaultsMembers(id: string, name: string, owner: string, now: Date)
    ensures MakeGroup(id, name, owner, now).members == []
  {
  }

  /** Swift's `==` on groups: two groups are the same group when their ids agree. */
  predicate SameGroup(a: Group, b: Group) {
    a.id == b.id
  }

  /** `==` is an equivalence that looks at the id and at nothing else. */
  lemma SameGroupIsIdEquality(a: Group, b: Group, c: Group)
    ensures SameGroup(a, a)
    ensures SameGroup(a, b) <==> SameGroup(b, a)
    ensures SameGroup(a, b) && SameGroup(b, c) ==> SameGroup(a, c)
    ensures SameGroup(a, b) <==> a.id == b.id
    ensures SameGroup(a, b.(name := a.name, owner := a.owner, members := a.members, createdAt := a.createdAt))
        <==> SameGroup(a, b)
  {
  }

  /** A CloudKit record: its type, the name of its record id, its fields and its creation date (nil until saved). */
  datatype Record = Record(recordType: string, recordName: string, fields: Fields, creationDate: Option<Date>)

  /**
   * `Group(record:)`: nil unless `name` and `owner` are strings. The id is the
   * record's name, the members default to none and the creation date to `now`.
   */
  function FromRecord(rec: Record, now: Date): (r: Option<Group>)
    ensures r.None? <==> StringField(rec.fields, "name").None? || StringField(rec.fields, "owner").None?
    ensures r.Some? ==>
      && r.value.id == rec.recordName
      && Str(r.value.name) == rec.fields["name"]
      && Str(r.value.owner) == rec.fields["owner"]
      && r.value.createdAt == rec.creationDate.GetOr(now)
    ensures r.Some? && StringArrayField(rec.fields, "members").None? ==> r.value.members == []
    ensures r.Some? && StringArrayField(rec.fields, "members").Some? ==>
      rec.fields["members"] == StringList(r.value.members)
  {
    match (StringField(rec.fields, "name"), StringField(rec.fields, "owner"))
    case (Some(name), Some(owner)) =>
      Some(Group(rec.recordName, name, owner,
                 StringArrayField(rec.fields, "members").GetOr([]),
                 rec.creationDate.GetOr(now)))
    case _ => None
  }

  /**
   * `toCKRecord()`: a new, unsaved record of type "Group" whose record name is
   * the fresh `recordName` (not the group's id), holding name, owner and members.
   */
  function ToRecord(g: Group, recordName: string): (rec: Record)
    ensures rec.recordType == "Group" && rec.recordName == recordName && rec.creationDate == None
    ensures rec.fields.Keys == {"name", "owner", "members"}
  {
    Record("Group", recordName,
           map["name" := Str(g.name), "owner" := Str(g.owner), "members" := StringList(g.members)],
           None)
  }

  /**
   * Decoding an encoded group keeps its name, owner and members. The id becomes
   * the new record's name and the creation date the decoder's `now`.
   */
  lemma {:induction false} RecordRoundTrip(g: Group, recordName: string, now: Date)
    ensures FromRecord(ToRecord(g, recordName), now) == Some(Group(recordName, g.name, g.owner, g.members, now))
  {
    var rec := ToRecord(g, recordName);
    StringListRoundTrip(g.members, rec.fields, "members");
  }

  /** Hence a round trip gives back a group equal to the original only when the fresh record name is its id. */
  lemma RecordRoundTripSameGroup(g: Group, recordName: string, now: Date)
    ensures FromRecord(ToRecord(g, recordName), now).Some?
    ensures SameGroup(FromRecord(ToRecord(g, recordName), now).value, g) <==> recordName == g.id
  {
    RecordRoundTrip(g, recordName, now);
  }
}
