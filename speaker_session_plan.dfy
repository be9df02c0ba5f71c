/**
 The speaker-to-mirror relationship planner of the speaker/session sync job.

 Every speaker row lists the sessions it speaks at and the sessions it moderates.
 The job expands these lists into one relationship per (speaker, session, role),
 matches each one against the rows already in the mirror table by the key
 `speaker_session_role`, queues it as a create (no matching row) or as an update
 of the matching row, and writes both queues in batches of ten. Mirror rows that
 match no relationship are left as they are: the job has no delete phase.
 */
module SpeakerSessionPlan {
  import opened MirrorKeys
  import opened Batching

  /** Rows per batch create / batch update call. */
  const BatchSize: nat := 10

  /** A link field as fetched: absent, a single id not wrapped in a list, or a list of ids. */
  datatype LinkValue = Absent | Scalar(id: string) | List(ids: seq<string>)

  datatype Role = Speaking | Moderating

  /** A speaker row: its id and its `Name`, `S Channel`, `Speaking` and `Moderating` fields
      (an absent `Name` reads as "" and an absent `S Channel` as []). */
  datatype SpeakerRecord = SpeakerRecord(id: string, name: string, channel: seq<string>,
                                         speaking: LinkValue, moderating: LinkValue)

  /** A mirror row as fetched: its id and its `Speaker`, `Session` and `Role` fields
      (an absent link field reads as [] and an absent `Role` as ""). */
  datatype MirrorRow = MirrorRow(id: string, speaker: seq<string>, session: seq<string>, role: string)

  /** The fields written to a mirror row. */
  datatype MirrorFields = MirrorFields(name: string, speaker: seq<string>, session: seq<string>,
                                       role: Role, channel: seq<string>)

  /** A queued update: the id of the existing mirror row and the fields it is overwritten with. */
  datatype MirrorUpdate = MirrorUpdate(id: string, fields: MirrorFields)

  /** One (speaker, session, role) relationship declared by a speaker row. */
  datatype Relationship = Relationship(speaker: SpeakerRecord, session: string, role: Role)

  /** What one run writes: the batch-create calls, then the batch-update calls, and the two totals. */
  datatype SyncOutcome = SyncOutcome(createBatches: seq<seq<MirrorFields>>, updateBatches: seq<seq<MirrorUpdate>>,
                                     createdCount: nat, updatedCount: nat)

  function RoleName(role: Role): string
  {
    match role
    case Speaking => "Speaking"
    case Moderating => "Moderating"
  }

  // ---------------------------------------------------------------------------
  // The existing-record map

  /** `field[0] if field else ''` */
  function FirstLink(links: seq<string>): string
  {
    if |links| > 0 then links[0] else ""
  }

  /** A mirror row enters the map only when its first speaker, first session and role are all non-empty. */
  predicate Keyed(row: MirrorRow)
  {
    FirstLink(row.speaker) != "" && FirstLink(row.session) != "" && row.role != ""
  }

  function RowKey(row: MirrorRow): string
  {
    Key(FirstLink(row.speaker), FirstLink(row.session), row.role)
  }

  /** The map from key to mirror row id after the loop over `rows`; a later row overwrites an earlier one. */
  function ExistingMap(rows: seq<MirrorRow>): map<string, string>
  {
    if |rows| == 0 then map[]
    else
      var m := ExistingMap(rows[..|rows| - 1]);
      var row := rows[|rows| - 1];
      if Keyed(row) then m[RowKey(row) := row.id] else m
  }

  method BuildExistingMap(rows: seq<MirrorRow>) returns (existing: map<string, string>)
    ensures existing == ExistingMap(rows)
  {
    existing := map[];
    for i := 0 to |rows|
      invariant existing == ExistingMap(rows[..i])
    {
      var row := rows[i];
      var speakerId := if |row.speaker| > 0 then row.speaker[0] else "";
      var sessionId := if |row.session| > 0 then row.session[0] else "";
      var role := row.role;
      if speakerId != "" && sessionId != "" && role != "" {
        existing := existing[Key(speakerId, sessionId, role) := row.id];
      }
      assert rows[..i + 1][..i] == rows[..i];
    }
    assert rows[..|rows|] == rows;
  }

  /** A key is in the map exactly when some keyed mirror row has it. */
  lemma {:induction false} ExistingMapKeys(rows: seq<MirrorRow>, k: string)
    ensures k in ExistingMap(rows) <==> exists i :: 0 <= i < |rows| && Keyed(rows[i]) && RowKey(rows[i]) == k
  {
    if |rows| > 0 {
      var init := rows[..|rows| - 1];
      ExistingMapKeys(init, k);
      if exists i :: 0 <= i < |init| && Keyed(init[i]) && RowKey(init[i]) == k {
        var i :| 0 <= i < |init| && Keyed(init[i]) && RowKey(init[i]) == k;
        assert rows[i] == init[i];
      }
      if exists i :: 0 <= i < |rows| && Keyed(rows[i]) && RowKey(rows[i]) == k {
        var i :| 0 <= i < |rows| && Keyed(rows[i]) && RowKey(rows[i]) == k;
        if i < |init| {
          assert init[i] == rows[i];
        }
      }
    }
  }

  /** The value under a key is the id of the last keyed mirror row with that key. */
  lemma {:induction false} ExistingMapLastWins(rows: seq<MirrorRow>, i: nat)
    requires i < |rows| && Keyed(rows[i])
    requires forall j :: i < j < |rows| ==> !(Keyed(rows[j]) && RowKey(rows[j]) == RowKey(rows[i]))
    ensures RowKey(rows[i]) in ExistingMap(rows) && ExistingMap(rows)[RowKey(rows[i])] == rows[i].id
  {
    var init := rows[..|rows| - 1];
    if i < |rows| - 1 {
      assert init[i] == rows[i];
      ExistingMapLastWins(init, i);
    }
  }

  /** Every value in the map is the id of a keyed mirror row with that key, and no later keyed row has that key. */
  lemma {:induction false} ExistingMapSound(rows: seq<MirrorRow>, k: string)
    requires k in ExistingMap(rows)
    ensures exists i :: 0 <= i < |rows| && Keyed(rows[i]) && RowKey(rows[i]) == k && rows[i].id == ExistingMap(rows)[k]
                        && forall j :: i < j < |rows| ==> !(Keyed(rows[j]) && RowKey(rows[j]) == k)
  {
    var init := rows[..|rows| - 1];
    var last := rows[|rows| - 1];
    if Keyed(last) && RowKey(last) == k {
      assert Keyed(rows[|rows| - 1]) && RowKey(rows[|rows| - 1]) == k;
    } else {
      ExistingMapSound(init, k);
      var i :| 0 <= i < |init| && Keyed(init[i]) && RowKey(init[i]) == k && init[i].id == ExistingMap(init)[k]
               && forall j :: i < j < |init| ==> !(Keyed(init[j]) && RowKey(init[j]) == k);
      assert rows[i] == init[i];
      assert forall j :: i < j < |rows| ==> !(Keyed(rows[j]) && RowKey(rows[j]) == k) by {
        forall j | i < j < |rows| ensures !(Keyed(rows[j]) && RowKey(rows[j]) == k) {
          if j < |init| {
            assert rows[j] == init[j];
          }
        }
      }
    }
  }

  // ---------------------------------------------------------------------------
  // Expanding speaker rows into relationships

  /** `if value:` / `if not isinstance(value, list): value = [value]`.
      An absent, empty or blank value lists nothing; a bare id is a one-element list. */
  function Normalize(v: LinkValue): seq<string>
  {
    match v
    case Absent => []
    case Scalar(id) => if id == "" then [] else [id]
    case List(ids) => ids
  }

  /** The sessions a speaker row lists for a role. */
  function SessionsFor(r: SpeakerRecord, role: Role): seq<string>
  {
    match role
    case Speaking => Normalize(r.speaking)
    case Moderating => Normalize(r.moderating)
  }

  function RoleRelationships(r: SpeakerRecord, role: Role): seq<Relationship>
  {
    var sessions := SessionsFor(r, role);
    seq(|sessions|, j requires 0 <= j < |sessions| => Relationship(r, sessions[j], role))
  }

  /** A speaker row's relationships: its speaking sessions in order, then its moderating sessions. */
  function RecordRelationships(r: SpeakerRecord): seq<Relationship>
  {
    RoleRelationships(r, Speaking) + RoleRelationships(r, Moderating)
  }

  /** All relationships of the fetched speaker rows, in the order the loops visit them. */
  function Expand(records: seq<SpeakerRecord>): seq<Relationship>
  {
    if |records| == 0 then []
    else Expand(records[..|records| - 1]) + RecordRelationships(records[|records| - 1])
  }

  /** The total length of all normalised Speaking and Moderating lists. */
  function TotalSessions(records: seq<SpeakerRecord>): nat
  {
    if |records| == 0 then 0
    else
      var r := records[|records| - 1];
      TotalSessions(records[..|records| - 1]) + |SessionsFor(r, Speaking)| + |SessionsFor(r, Moderating)|
  }

  function RelationshipKey(l: Relationship): string
  {
    Key(l.speaker.id, l.session, RoleName(l.role))
  }

  /** The mirror fields synthesised for a relationship. */
  function FieldsOf(l: Relationship): MirrorFields
  {
    MirrorFields(l.speaker.name, [l.speaker.id], [l.session], l.role, l.speaker.channel)
  }

  /** The key a mirror row written with these fields would have. */
  function FieldsKey(f: MirrorFields): string
  {
    Key(FirstLink(f.speaker), FirstLink(f.session), RoleName(f.role))
  }

  /** The set of keys of a list of relationships. */
  function KeysOf(links: seq<Relationship>): set<string>
  {
    if |links| == 0 then {}
    else KeysOf(links[..|links| - 1]) + {RelationshipKey(links[|links| - 1])}
  }

  lemma {:induction false} KeysOfMembers(links: seq<Relationship>, k: string)
    ensures k in KeysOf(links) <==> exists l :: l in links && RelationshipKey(l) == k
  {
    if |links| > 0 {
      var init := links[..|links| - 1];
      KeysOfMembers(init, k);
      if exists l :: l in links && RelationshipKey(l) == k {
        var l :| l in links && RelationshipKey(l) == k;
        if l != links[|links| - 1] {
          assert l in init;
        }
      }
    }
  }

  /** A bare id counts as a one-element list; an absent, blank or empty value contributes no relationship. */
  lemma RecordContribution(r: SpeakerRecord)
    ensures |RecordRelationships(r)| == |SessionsFor(r, Speaking)| + |SessionsFor(r, Moderating)|
    ensures r.speaking.Scalar? && r.speaking.id != "" ==> RoleRelationships(r, Speaking) == [Relationship(r, r.speaking.id, Speaking)]
    ensures r.moderating.Scalar? && r.moderating.id != "" ==> RoleRelationships(r, Moderating) == [Relationship(r, r.moderating.id, Moderating)]
    ensures (r.speaking.Absent? || r.speaking == Scalar("") || r.speaking == List([]))
            && (r.moderating.Absent? || r.moderating == Scalar("") || r.moderating == List([]))
            ==> RecordRelationships(r) == []
  {
  }

  /** One relationship per listed session: the expansion is as long as all normalised lists together. */
  lemma {:induction false} ExpandLength(records: seq<SpeakerRecord>)
    ensures |Expand(records)| == TotalSessions(records)
  {
    if |records| > 0 {
      ExpandLength(records[..|records| - 1]);
    }
  }

  /** Every relationship comes from a fetched speaker row that lists its session under its role. */
  lemma {:induction false} ExpandSound(records: seq<SpeakerRecord>)
    ensures forall l :: l in Expand(records) ==> l.speaker in records && l.session in SessionsFor(l.speaker, l.role)
  {
    if |records| > 0 {
      var init := records[..|records| - 1];
      var r := records[|records| - 1];
      ExpandSound(init);
      forall l | l in Expand(records)
        ensures l.speaker in records && l.session in SessionsFor(l.speaker, l.role)
      {
        if l in Expand(init) {
          assert l.speaker in init;
        } else {
          assert l in RoleRelationships(r, Speaking) || l in RoleRelationships(r, Moderating);
        }
      }
    }
  }

  /** Every session a fetched speaker row lists under a role yields that relationship. */
  lemma {:induction false} ExpandComplete(records: seq<SpeakerRecord>, i: nat, role: Role, s: string)
    requires i < |records| && s in SessionsFor(records[i], role)
    ensures Relationship(records[i], s, role) in Expand(records)
  {
    var init := records[..|records| - 1];
    if i < |records| - 1 {
      assert init[i] == records[i];
      ExpandComplete(init, i, role, s);
    } else {
      var r := records[i];
      var sessions := SessionsFor(r, role);
      var j :| 0 <= j < |sessions| && sessions[j] == s;
      assert RoleRelationships(r, role)[j] == Relationship(r, s, role);
      assert Relationship(r, s, role) in RecordRelationships(r);
    }
  }

  /** A session listed under both roles gives two relationships whose keys differ only in the role suffix. */
  lemma BothRolesKept(r: SpeakerRecord, s: string)
    requires s in SessionsFor(r, Speaking) && s in SessionsFor(r, Moderating)
    ensures Relationship(r, s, Speaking) in RecordRelationships(r)
    ensures Relationship(r, s, Moderating) in RecordRelationships(r)
    ensures RelationshipKey(Relationship(r, s, Speaking)) == r.id + "_" + s + "_" + "Speaking"
    ensures RelationshipKey(Relationship(r, s, Moderating)) == r.id + "_" + s + "_" + "Moderating"
    ensures RelationshipKey(Relationship(r, s, Speaking)) != RelationshipKey(Relationship(r, s, Moderating))
  {
    var sp := SessionsFor(r, Speaking);
    var mo := SessionsFor(r, Moderating);
    var j :| 0 <= j < |sp| && sp[j] == s;
    var k :| 0 <= k < |mo| && mo[k] == s;
    assert RoleRelationships(r, Speaking)[j] == Relationship(r, s, Speaking);
    assert RoleRelationships(r, Moderating)[k] == Relationship(r, s, Moderating);
    var prefix := r.id + "_" + s + "_";
    assert RelationshipKey(Relationship(r, s, Speaking)) == prefix + "Speaking";
    assert RelationshipKey(Relationship(r, s, Moderating)) == prefix + "Moderating";
    assert |prefix + "Speaking"| != |prefix + "Moderating"|;
  }

  // ---------------------------------------------------------------------------
  // Classification into creates and updates

  /** The relationships whose key is not in the map, as fields to create, in order. */
  function Creates(links: seq<Relationship>, existing: map<string, string>): seq<MirrorFields>
  {
    if |links| == 0 then []
    else
      var l := links[|links| - 1];
      Creates(links[..|links| - 1], existing) + (if RelationshipKey(l) in existing then [] else [FieldsOf(l)])
  }

  /** The relationships whose key is in the map, as updates of the row the map names, in order. */
  function Updates(links: seq<Relationship>, existing: map<string, string>): seq<MirrorUpdate>
  {
    if |links| == 0 then []
    else
      var l := links[|links| - 1];
      var k := RelationshipKey(l);
      Updates(links[..|links| - 1], existing) + (if k in existing then [MirrorUpdate(existing[k], FieldsOf(l))] else [])
  }

  lemma {:induction false} ClassifyAppend(a: seq<Relationship>, b: seq<Relationship>, existing: map<string, string>)
    ensures Creates(a + b, existing) == Creates(a, existing) + Creates(b, existing)
    ensures Updates(a + b, existing) == Updates(a, existing) + Updates(b, existing)
    ensures KeysOf(a + b) == KeysOf(a) + KeysOf(b)
  {
    if |b| == 0 {
      assert a + b == a;
    } else {
      var b' := b[..|b| - 1];
      assert (a + b)[..|a + b| - 1] == a + b';
      assert (a + b)[|a + b| - 1] == b[|b| - 1];
      ClassifyAppend(a, b', existing);
    }
  }

  lemma ClassifyOne(l: Relationship, existing: map<string, string>)
    ensures Creates([l], existing) == if RelationshipKey(l) in existing then [] else [FieldsOf(l)]
    ensures Updates([l], existing) == if RelationshipKey(l) in existing then [MirrorUpdate(existing[RelationshipKey(l)], FieldsOf(l))] else []
    ensures KeysOf([l]) == {RelationshipKey(l)}
  {
    assert [l][..0] == [];
  }

  /** Queueing one more relationship extends the queues of the ones before it. */
  lemma QueueStep(links: seq<Relationship>, j: nat, existing: map<string, string>,
                  creates0: seq<MirrorFields>, updates0: seq<MirrorUpdate>, processed0: set<string>)
    requires j < |links|
    ensures creates0 + Creates(links[..j + 1], existing) == (creates0 + Creates(links[..j], existing)) + Creates([links[j]], existing)
    ensures updates0 + Updates(links[..j + 1], existing) == (updates0 + Updates(links[..j], existing)) + Updates([links[j]], existing)
    ensures processed0 + KeysOf(links[..j + 1]) == (processed0 + KeysOf(links[..j])) + KeysOf([links[j]])
  {
    assert links[..j + 1] == links[..j] + [links[j]];
    ClassifyAppend(links[..j], [links[j]], existing);
  }

  /** Each relationship is queued exactly once: the two queues together are as long as the relationship list. */
  lemma {:induction false} ClassifyPartition(links: seq<Relationship>, existing: map<string, string>)
    ensures |Creates(links, existing)| + |Updates(links, existing)| == |links|
  {
    if |links| > 0 {
      ClassifyPartition(links[..|links| - 1], existing);
    }
  }

  /** Every queued create is the fields of a relationship whose key has no mirror row. */
  lemma {:induction false} CreatesSound(links: seq<Relationship>, existing: map<string, string>)
    ensures forall c :: c in Creates(links, existing) ==>
              exists l :: l in links && RelationshipKey(l) !in existing && c == FieldsOf(l)
  {
    if |links| > 0 {
      var init := links[..|links| - 1];
      CreatesSound(init, existing);
      forall c | c in Creates(links, existing)
        ensures exists l :: l in links && RelationshipKey(l) !in existing && c == FieldsOf(l)
      {
        if c in Creates(init, existing) {
          var l :| l in init && RelationshipKey(l) !in existing && c == FieldsOf(l);
          assert l in links;
        } else {
          assert links[|links| - 1] in links;
        }
      }
    }
  }

  /** Every queued update targets the row the map holds for its relationship's key and carries that relationship's fields. */
  lemma {:induction false} UpdatesSound(links: seq<Relationship>, existing: map<string, string>)
    ensures forall u :: u in Updates(links, existing) ==>
              exists l :: l in links && RelationshipKey(l) in existing
                          && u == MirrorUpdate(existing[RelationshipKey(l)], FieldsOf(l))
  {
    if |links| > 0 {
      var init := links[..|links| - 1];
      UpdatesSound(init, existing);
      forall u | u in Updates(links, existing)
        ensures exists l :: l in links && RelationshipKey(l) in existing
                            && u == MirrorUpdate(existing[RelationshipKey(l)], FieldsOf(l))
      {
        if u in Updates(init, existing) {
          var l :| l in init && RelationshipKey(l) in existing && u == MirrorUpdate(existing[RelationshipKey(l)], FieldsOf(l));
          assert l in links;
        } else {
          assert links[|links| - 1] in links;
        }
      }
    }
  }

  /** Every relationship is queued: as an update of the mapped row when its key is in the map, else as a create. */
  lemma {:induction false} ClassifyComplete(links: seq<Relationship>, existing: map<string, string>)
    ensures forall l :: l in links && RelationshipKey(l) in existing ==>
              MirrorUpdate(existing[RelationshipKey(l)], FieldsOf(l)) in Updates(links, existing)
    ensures forall l :: l in links && RelationshipKey(l) !in existing ==> FieldsOf(l) in Creates(links, existing)
  {
    if |links| > 0 {
      var init := links[..|links| - 1];
      ClassifyComplete(init, existing);
      forall l | l in links
        ensures RelationshipKey(l) in existing ==> MirrorUpdate(existing[RelationshipKey(l)], FieldsOf(l)) in Updates(links, existing)
        ensures RelationshipKey(l) !in existing ==> FieldsOf(l) in Creates(links, existing)
      {
        if l != links[|links| - 1] {
          assert l in init;
        }
      }
    }
  }

  /** The fields of a relationship determine its key. */
  lemma FieldsKeyOf(l: Relationship)
    ensures FieldsKey(FieldsOf(l)) == RelationshipKey(l)
  {
  }

  /** No relationship is queued both ways: no create equals the fields of an update. */
  lemma NeverBoth(links: seq<Relationship>, existing: map<string, string>)
    ensures forall c, u :: c in Creates(links, existing) && u in Updates(links, existing) ==> c != u.fields
  {
    CreatesSound(links, existing);
    UpdatesSound(links, existing);
    forall c, u | c in Creates(links, existing) && u in Updates(links, existing)
      ensures c != u.fields
    {
      var l1 :| l1 in links && RelationshipKey(l1) !in existing && c == FieldsOf(l1);
      var l2 :| l2 in links && RelationshipKey(l2) in existing
                && u == MirrorUpdate(existing[RelationshipKey(l2)], FieldsOf(l2));
      FieldsKeyOf(l1);
      FieldsKeyOf(l2);
    }
  }

  /** The keys the queued creates and updates will have in the mirror table. */
  function QueuedKeys(creates: seq<MirrorFields>, updates: seq<MirrorUpdate>): set<string>
  {
    (set c | c in creates :: FieldsKey(c)) + (set u | u in updates :: FieldsKey(u.fields))
  }

  lemma ProcessedKeysQueued(links: seq<Relationship>, existing: map<string, string>, k: string)
    requires k in KeysOf(links)
    ensures k in QueuedKeys(Creates(links, existing), Updates(links, existing))
  {
    KeysOfMembers(links, k);
    var l :| l in links && RelationshipKey(l) == k;
    FieldsKeyOf(l);
    ClassifyComplete(links, existing);
    if k in existing {
      var u := MirrorUpdate(existing[k], FieldsOf(l));
      assert u in Updates(links, existing) && FieldsKey(u.fields) == k;
    } else {
      assert FieldsOf(l) in Creates(links, existing);
    }
  }

  lemma QueuedKeysProcessed(links: seq<Relationship>, existing: map<string, string>, k: string)
    requires k in QueuedKeys(Creates(links, existing), Updates(links, existing))
    ensures k in KeysOf(links)
  {
    KeysOfMembers(links, k);
    if c :| c in Creates(links, existing) && FieldsKey(c) == k {
      CreatesSound(links, existing);
      var l :| l in links && RelationshipKey(l) !in existing && c == FieldsOf(l);
      FieldsKeyOf(l);
    } else {
      UpdatesSound(links, existing);
      var u :| u in Updates(links, existing) && FieldsKey(u.fields) == k;
      var l :| l in links && RelationshipKey(l) in existing
               && u == MirrorUpdate(existing[RelationshipKey(l)], FieldsOf(l));
      FieldsKeyOf(l);
    }
  }

  /** The processed set is the set of keys of everything queued. */
  lemma ProcessedIsQueuedKeys(links: seq<Relationship>, existing: map<string, string>)
    ensures KeysOf(links) == QueuedKeys(Creates(links, existing), Updates(links, existing))
  {
    forall k | k in KeysOf(links) ensures k in QueuedKeys(Creates(links, existing), Updates(links, existing)) {
      ProcessedKeysQueued(links, existing, k);
    }
    forall k | k in QueuedKeys(Creates(links, existing), Updates(links, existing)) ensures k in KeysOf(links) {
      QueuedKeysProcessed(links, existing, k);
    }
  }

  // ---------------------------------------------------------------------------
  // The planning loops

  /** One pass of the inner loop: synthesise the fields for one relationship and queue them. */
  method QueueOne(l: Relationship, existing: map<string, string>,
                  creates0: seq<MirrorFields>, updates0: seq<MirrorUpdate>, processed0: set<string>)
    returns (creates: seq<MirrorFields>, updates: seq<MirrorUpdate>, processed: set<string>)
    ensures creates == creates0 + Creates([l], existing)
    ensures updates == updates0 + Updates([l], existing)
    ensures processed == processed0 + KeysOf([l])
  {
    creates, updates, processed := creates0, updates0, processed0;
    var fields := MirrorFields(l.speaker.name, [l.speaker.id], [l.session], l.role, l.speaker.channel);
    var key := Key(l.speaker.id, l.session, RoleName(l.role));
    ClassifyOne(l, existing);
    if key in existing {
      updates := updates + [MirrorUpdate(existing[key], fields)];
    } else {
      creates := creates + [fields];
    }
    processed := processed + {key};
  }

  /** The inner loop over one role's session list of one speaker row. */
  method QueueRole(rec: SpeakerRecord, role: Role, existing: map<string, string>,
                   creates0: seq<MirrorFields>, updates0: seq<MirrorUpdate>, processed0: set<string>)
    returns (creates: seq<MirrorFields>, updates: seq<MirrorUpdate>, processed: set<string>)
    ensures creates == creates0 + Creates(RoleRelationships(rec, role), existing)
    ensures updates == updates0 + Updates(RoleRelationships(rec, role), existing)
    ensures processed == processed0 + KeysOf(RoleRelationships(rec, role))
  {
    creates, updates, processed := creates0, updates0, processed0;
    var sessions := SessionsFor(rec, role);
    ghost var rels := RoleRelationships(rec, role);
    for j := 0 to |sessions|
      invariant creates == creates0 + Creates(rels[..j], existing)
      invariant updates == updates0 + Updates(rels[..j], existing)
      invariant processed == processed0 + KeysOf(rels[..j])
    {
      assert rels[j] == Relationship(rec, sessions[j], role);
      QueueStep(rels, j, existing, creates0, updates0, processed0);
      creates, updates, processed := QueueOne(Relationship(rec, sessions[j], role), existing, creates, updates, processed);
    }
    assert rels[..|sessions|] == rels;
  }

  /** The outer loop over the fetched speaker rows. */
  method PlanRelationships(records: seq<SpeakerRecord>, existing: map<string, string>)
    returns (creates: seq<MirrorFields>, updates: seq<MirrorUpdate>, processed: set<string>)
    ensures creates == Creates(Expand(records), existing)
    ensures updates == Updates(Expand(records), existing)
    ensures processed == KeysOf(Expand(records))
  {
    creates, updates, processed := [], [], {};
    for i := 0 to |records|
      invariant creates == Creates(Expand(records[..i]), existing)
      invariant updates == Updates(Expand(records[..i]), existing)
      invariant processed == KeysOf(Expand(records[..i]))
    {
      var rec := records[i];
      ghost var done := Expand(records[..i]);
      assert records[..i + 1][..i] == records[..i];
      assert Expand(records[..i + 1]) == (done + RoleRelationships(rec, Speaking)) + RoleRelationships(rec, Moderating);
      ClassifyAppend(done, RoleRelationships(rec, Speaking), existing);
      ClassifyAppend(done + RoleRelationships(rec, Speaking), RoleRelationships(rec, Moderating), existing);
      creates, updates, processed := QueueRole(rec, Speaking, existing, creates, updates, processed);
      creates, updates, processed := QueueRole(rec, Moderating, existing, creates, updates, processed);
    }
    assert records[..|records|] == records;
  }

  /**
   One run of the job over the fetched speaker rows and the current mirror rows.
   With no speaker rows it stops before reading the mirror table.
   */
  method SyncSpeakerSessions(records: seq<SpeakerRecord>, mirror: seq<MirrorRow>) returns (out: SyncOutcome)
    ensures |records| == 0 ==> out == SyncOutcome([], [], 0, 0)
    ensures Flatten(out.createBatches) == Creates(Expand(records), ExistingMap(mirror))
    ensures Flatten(out.updateBatches) == Updates(Expand(records), ExistingMap(mirror))
    ensures WellBatched(out.createBatches, BatchSize) && WellBatched(out.updateBatches, BatchSize)
    ensures out.createdCount == |Flatten(out.createBatches)|
    ensures out.updatedCount == |Flatten(out.updateBatches)|
    ensures out.createdCount + out.updatedCount == TotalSessions(records)
    ensures forall u :: u in Flatten(out.updateBatches) ==>
              exists row :: row in mirror && Keyed(row) && row.id == u.id && RowKey(row) == FieldsKey(u.fields)
  {
    if |records| == 0 {
      return SyncOutcome([], [], 0, 0);
    }
    var existing := BuildExistingMap(mirror);
    var creates, updates, processed := PlanRelationships(records, existing);

    var createBatches: seq<seq<MirrorFields>>, createdCount := [], 0;
    if |creates| > 0 {
      createBatches, createdCount := WriteInBatches(creates, BatchSize);
    }
    var updateBatches: seq<seq<MirrorUpdate>>, updatedCount := [], 0;
    if |updates| > 0 {
      updateBatches, updatedCount := WriteInBatches(updates, BatchSize);
    }
    out := SyncOutcome(createBatches, updateBatches, createdCount, updatedCount);

    ExpandLength(records);
    ClassifyPartition(Expand(records), existing);
    forall u | u in updates
      ensures exists row :: row in mirror && Keyed(row) && row.id == u.id && RowKey(row) == FieldsKey(u.fields)
    {
      var l, row := UpdateOrigin(records, mirror, u);
      FieldsKeyOf(l);
    }
  }

  // ---------------------------------------------------------------------------
  // Properties of a whole run

  /** Every queued row carries the speaker row's id, name and channel, and a session that row lists under the role. */
  lemma SynthesizedFields(records: seq<SpeakerRecord>, existing: map<string, string>, f: MirrorFields)
    requires f in Creates(Expand(records), existing) || exists u :: u in Updates(Expand(records), existing) && u.fields == f
    ensures exists r, s :: r in records && s in SessionsFor(r, f.role)
                           && f == MirrorFields(r.name, [r.id], [s], f.role, r.channel)
  {
    var links := Expand(records);
    CreatesSound(links, existing);
    UpdatesSound(links, existing);
    ExpandSound(records);
    var l: Relationship;
    if f in Creates(links, existing) {
      l :| l in links && RelationshipKey(l) !in existing && f == FieldsOf(l);
    } else {
      var u :| u in Updates(links, existing) && u.fields == f;
      l :| l in links && RelationshipKey(l) in existing && u == MirrorUpdate(existing[RelationshipKey(l)], FieldsOf(l));
    }
    assert l.speaker in records && l.session in SessionsFor(l.speaker, f.role);
  }

  /** No speaker row id, listed session id or mirror link id contains the key separator (true of the table's row ids). */
  ghost predicate SeparatorFreeIds(records: seq<SpeakerRecord>, mirror: seq<MirrorRow>)
  {
    && (forall r :: r in records ==> Separator !in r.id)
    && (forall r, role, s :: r in records && s in SessionsFor(r, role) ==> Separator !in s)
    && (forall row :: row in mirror ==> Separator !in FirstLink(row.speaker) && Separator !in FirstLink(row.session))
  }

  /** The relationship an update was queued for and the mirror row it overwrites. */
  lemma UpdateOrigin(records: seq<SpeakerRecord>, mirror: seq<MirrorRow>, u: MirrorUpdate)
    returns (l: Relationship, row: MirrorRow)
    requires u in Updates(Expand(records), ExistingMap(mirror))
    ensures l.speaker in records && l.session in SessionsFor(l.speaker, l.role) && u.fields == FieldsOf(l)
    ensures row in mirror && Keyed(row) && row.id == u.id && RowKey(row) == RelationshipKey(l)
  {
    var existing := ExistingMap(mirror);
    var links := Expand(records);
    UpdatesSound(links, existing);
    l :| l in links && RelationshipKey(l) in existing && u == MirrorUpdate(existing[RelationshipKey(l)], FieldsOf(l));
    ExpandSound(records);
    var k := RelationshipKey(l);
    ExistingMapSound(mirror, k);
    var i :| 0 <= i < |mirror| && Keyed(mirror[i]) && RowKey(mirror[i]) == k && mirror[i].id == existing[k]
             && forall j :: i < j < |mirror| ==> !(Keyed(mirror[j]) && RowKey(mirror[j]) == k);
    row := mirror[i];
  }

  /** Under such ids an update overwrites a mirror row that holds the very speaker, session and role it writes. */
  lemma UpdateTargetsSameTriple(records: seq<SpeakerRecord>, mirror: seq<MirrorRow>, u: MirrorUpdate)
    requires SeparatorFreeIds(records, mirror)
    requires u in Updates(Expand(records), ExistingMap(mirror))
    ensures exists row :: row in mirror && Keyed(row) && row.id == u.id
                          && FirstLink(row.speaker) == FirstLink(u.fields.speaker)
                          && FirstLink(row.session) == FirstLink(u.fields.session)
                          && row.role == RoleName(u.fields.role)
  {
    var l, row := UpdateOrigin(records, mirror, u);
    assert Separator !in l.speaker.id && Separator !in l.session;
    assert Separator !in FirstLink(row.speaker) && Separator !in FirstLink(row.session);
    KeyInjective(FirstLink(row.speaker), FirstLink(row.session), row.role, l.speaker.id, l.session, RoleName(l.role));
  }

  /** The mirror row a batch create writes for `f`, under the id the table assigns to it. */
  function CreatedRow(f: MirrorFields, id: string): MirrorRow
  {
    MirrorRow(id, f.speaker, f.session, RoleName(f.role))
  }

  function CreatedRows(fs: seq<MirrorFields>, ids: seq<string>): seq<MirrorRow>
    requires |fs| == |ids|
  {
    seq(|fs|, k requires 0 <= k < |fs| => CreatedRow(fs[k], ids[k]))
  }

  /** Appending rows to the mirror table never loses a key from the map. */
  lemma ExistingMapGrows(m1: seq<MirrorRow>, m2: seq<MirrorRow>, k: string)
    requires k in ExistingMap(m1)
    ensures k in ExistingMap(m1 + m2)
  {
    ExistingMapKeys(m1, k);
    var i :| 0 <= i < |m1| && Keyed(m1[i]) && RowKey(m1[i]) == k;
    assert (m1 + m2)[i] == m1[i];
    ExistingMapKeys(m1 + m2, k);
  }

  lemma {:induction false} CreatesEmptyWhenAllMatched(links: seq<Relationship>, existing: map<string, string>)
    requires forall l :: l in links ==> RelationshipKey(l) in existing
    ensures Creates(links, existing) == []
  {
    if |links| > 0 {
      var init := links[..|links| - 1];
      assert links[|links| - 1] in links;
      assert forall l :: l in init ==> l in links;
      CreatesEmptyWhenAllMatched(init, existing);
    }
  }

  /**
   Re-running with the same speaker rows after the creates of a run have been
   written creates nothing more: every relationship then finds its mirror row
   and is queued as an update.
   */
  lemma RerunCreatesNothing(records: seq<SpeakerRecord>, mirror: seq<MirrorRow>, ids: seq<string>)
    requires forall r :: r in records ==> r.id != ""
    requires forall r, role, s :: r in records && s in SessionsFor(r, role) ==> s != ""
    requires |ids| == |Creates(Expand(records), ExistingMap(mirror))|
    ensures var mirror' := mirror + CreatedRows(Creates(Expand(records), ExistingMap(mirror)), ids);
            && Creates(Expand(records), ExistingMap(mirror')) == []
            && |Updates(Expand(records), ExistingMap(mirror'))| == TotalSessions(records)
  {
    var links := Expand(records);
    var existing := ExistingMap(mirror);
    var creates := Creates(links, existing);
    var added := CreatedRows(creates, ids);
    var mirror' := mirror + added;
    ExpandSound(records);
    ClassifyComplete(links, existing);
    forall l | l in links ensures RelationshipKey(l) in ExistingMap(mirror') {
      var k := RelationshipKey(l);
      if k in existing {
        ExistingMapGrows(mirror, added, k);
      } else {
        var c :| c in creates && c == FieldsOf(l);
        var j :| 0 <= j < |creates| && creates[j] == c;
        var row := mirror'[|mirror| + j];
        assert row == CreatedRow(c, ids[j]);
        assert Keyed(row) && RowKey(row) == k;
        ExistingMapKeys(mirror', k);
      }
    }
    CreatesEmptyWhenAllMatched(links, ExistingMap(mirror'));
    ClassifyPartition(links, ExistingMap(mirror'));
    ExpandLength(records);
  }
}
