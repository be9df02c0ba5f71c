/**
 The session-id assignment job: for every organizer session whose title is in
 the title index, choose a remote session id and write it back to the row;
 rows whose title is not in the index are reported and left unchanged.
 */
module Assignment {
  import opened Wrappers
  import opened OrderedMaps
  import opened TitleIndex
  import opened OrganizerSessions

  /** One `update(record_id, {"Session ID": session_id})` call. */
  datatype CodeUpdate = CodeUpdate(recordId: string, sessionId: string)

  /**
   The matching rule for one organizer session; `convDt` converts its start time.
   A duplicated title whose converted start is a key of the title's sub-map takes
   that entry; any other indexed title takes its first-inserted id.
   */
  function MatchSession(idx: Index, info: SessionInfo, convDt: string -> string): (r: Option<string>)
    requires NonEmptyEntries(idx)
    ensures r.None? <==> info.title !in idx
    ensures r.Some? ==> HasValue(idx[info.title], r.value)
  {
    if info.title in idx then
      var sub := idx[info.title];
      var startTime := convDt(info.startTime);
      if info.isDuplicate && Contains(sub, startTime) then Some(Get(sub, startTime)) else Some(First(sub))
    else
      None
  }

  /** The updates issued by the loop over the organizer sessions in `org`. */
  function Assigned(org: OrderedMap<SessionInfo>, idx: Index, convDt: string -> string): seq<CodeUpdate>
    requires NonEmptyEntries(idx)
  {
    if |org| == 0 then []
    else
      var e := org[|org| - 1];
      var m := MatchSession(idx, e.value, convDt);
      Assigned(org[..|org| - 1], idx, convDt) + (if m.Some? then [CodeUpdate(e.key, m.value)] else [])
  }

  /** The rows the loop reports as unmatched. */
  function Unmatched(org: OrderedMap<SessionInfo>, idx: Index, convDt: string -> string): seq<string>
    requires NonEmptyEntries(idx)
  {
    if |org| == 0 then []
    else
      var e := org[|org| - 1];
      Unmatched(org[..|org| - 1], idx, convDt) + (if e.value.title in idx then [] else [e.key])
  }

  /** The loop of `assign_codes_to_sessions` over the organizer sessions. */
  method AssignCodes(idx: Index, org: OrderedMap<SessionInfo>, convDt: string -> string)
    returns (updates: seq<CodeUpdate>, unmatched: seq<string>)
    requires NonEmptyEntries(idx)
    ensures updates == Assigned(org, idx, convDt)
    ensures unmatched == Unmatched(org, idx, convDt)
  {
    updates, unmatched := [], [];
    for j := 0 to |org|
      invariant updates == Assigned(org[..j], idx, convDt)
      invariant unmatched == Unmatched(org[..j], idx, convDt)
    {
      var recordId, info := org[j].key, org[j].value;
      var sessionName := info.title;
      var startTime := convDt(info.startTime);
      if sessionName in idx {
        var sessionId;
        if info.isDuplicate && Contains(idx[sessionName], startTime) {
          sessionId := Get(idx[sessionName], startTime);
        } else {
          sessionId := First(idx[sessionName]);
        }
        updates := updates + [CodeUpdate(recordId, sessionId)];
      } else {
        unmatched := unmatched + [recordId];
      }
      assert org[..j + 1][..j] == org[..j];
    }
    assert org[..|org|] == org;
  }

  /** Every organizer session is either updated or reported unmatched. */
  lemma {:induction false} AssignPartition(org: OrderedMap<SessionInfo>, idx: Index, convDt: string -> string)
    requires NonEmptyEntries(idx)
    ensures |Assigned(org, idx, convDt)| + |Unmatched(org, idx, convDt)| == |org|
  {
    if |org| > 0 {
      AssignPartition(org[..|org| - 1], idx, convDt);
    }
  }

  /** Every update is for an organizer session whose rule chose exactly that id. */
  lemma {:induction false} AssignedSound(org: OrderedMap<SessionInfo>, idx: Index, convDt: string -> string)
    requires NonEmptyEntries(idx)
    ensures forall u :: u in Assigned(org, idx, convDt) ==>
              exists j :: 0 <= j < |org| && org[j].key == u.recordId
                          && MatchSession(idx, org[j].value, convDt) == Some(u.sessionId)
  {
    if |org| > 0 {
      var init := org[..|org| - 1];
      AssignedSound(init, idx, convDt);
      forall u | u in Assigned(org, idx, convDt)
        ensures exists j :: 0 <= j < |org| && org[j].key == u.recordId
                            && MatchSession(idx, org[j].value, convDt) == Some(u.sessionId)
      {
        if u in Assigned(init, idx, convDt) {
          var j :| 0 <= j < |init| && init[j].key == u.recordId && MatchSession(idx, init[j].value, convDt) == Some(u.sessionId);
          assert org[j] == init[j];
        } else {
          var j := |org| - 1;
          assert org[j].key == u.recordId && MatchSession(idx, org[j].value, convDt) == Some(u.sessionId);
        }
      }
    }
  }

  /** An organizer session is updated, with the chosen id, exactly when its title is indexed; otherwise it is reported. */
  lemma {:induction false} AssignedComplete(org: OrderedMap<SessionInfo>, idx: Index, convDt: string -> string, j: nat)
    requires NonEmptyEntries(idx) && j < |org|
    ensures org[j].value.title in idx ==>
              CodeUpdate(org[j].key, MatchSession(idx, org[j].value, convDt).value) in Assigned(org, idx, convDt)
    ensures org[j].value.title !in idx ==> org[j].key in Unmatched(org, idx, convDt)
  {
    var init := org[..|org| - 1];
    if j < |org| - 1 {
      assert init[j] == org[j];
      AssignedComplete(init, idx, convDt, j);
    }
  }

  /** With distinct keys (as a dictionary has) each organizer row is updated at most once. */
  lemma {:induction false} UpdatedAtMostOnce(org: OrderedMap<SessionInfo>, idx: Index, convDt: string -> string)
    requires NonEmptyEntries(idx) && DistinctKeys(org)
    ensures forall a, b :: 0 <= a < b < |Assigned(org, idx, convDt)| ==>
              Assigned(org, idx, convDt)[a].recordId != Assigned(org, idx, convDt)[b].recordId
  {
    if |org| > 0 {
      var init := org[..|org| - 1];
      var last := org[|org| - 1];
      var before := Assigned(init, idx, convDt);
      UpdatedAtMostOnce(init, idx, convDt);
      AssignedSound(init, idx, convDt);
      forall a | 0 <= a < |before| ensures before[a].recordId != last.key {
        assert before[a] in before;
        var j :| 0 <= j < |init| && init[j].key == before[a].recordId
                 && MatchSession(idx, init[j].value, convDt) == Some(before[a].sessionId);
        assert org[j] == init[j];
      }
    }
  }

  /** A chosen id is the id of a remote session with exactly the organizer session's title. */
  lemma {:induction false} ChosenIdHasTitle(sessions: seq<RemoteSession>, conv: string -> string, info: SessionInfo,
                         convDt: string -> string, id: string)
    requires MatchSession(BuildIndex(sessions, conv), info, convDt) == Some(id)
    ensures exists i :: 0 <= i < |sessions| && sessions[i].title == info.title && sessions[i].id == id
  {
    var idx := BuildIndex(sessions, conv);
    assert info.title in idx && HasValue(idx[info.title], id);
    var sub: OrderedMap<string> := idx[info.title];
    var j: nat :| j < |sub| && sub[j].value == id;
    IndexEntrySound(sessions, conv, info.title, j);
  }

  /** A duplicated title whose converted start matches a remote session's takes the id of the last such session. */
  lemma DuplicateMatchesByStart(sessions: seq<RemoteSession>, conv: string -> string, info: SessionInfo,
                                convDt: string -> string, i: nat)
    requires info.isDuplicate
    requires i < |sessions| && sessions[i].title == info.title && conv(sessions[i].start) == convDt(info.startTime)
    requires forall j :: i < j < |sessions| ==>
               sessions[j].title != sessions[i].title || conv(sessions[j].start) != conv(sessions[i].start)
    ensures MatchSession(BuildIndex(sessions, conv), info, convDt) == Some(sessions[i].id)
  {
    IndexLookupLast(sessions, conv, i);
  }

  /**
   Otherwise (a unique title, or no remote session at the converted start) an indexed
   title takes the first-inserted id: the last session sharing title and converted
   start with the first session of that title.
   */
  lemma OtherwiseFirstInserted(sessions: seq<RemoteSession>, conv: string -> string, info: SessionInfo,
                               convDt: string -> string, first: nat, last: nat)
    requires !info.isDuplicate || !Listed(sessions, conv, info.title, convDt(info.startTime))
    requires first <= last < |sessions| && sessions[first].title == info.title
    requires forall j :: 0 <= j < first ==> sessions[j].title != sessions[first].title
    requires sessions[last].title == sessions[first].title
    requires conv(sessions[last].start) == conv(sessions[first].start)
    requires forall j :: last < j < |sessions| ==>
               sessions[j].title != sessions[last].title || conv(sessions[j].start) != conv(sessions[last].start)
    ensures MatchSession(BuildIndex(sessions, conv), info, convDt) == Some(sessions[last].id)
  {
    IndexContains(sessions, conv, info.title, convDt(info.startTime));
    FirstIdForTitle(sessions, conv, first, last);
  }

  /** A single remote "Keynote" and an organizer "Keynote" that is not duplicated: the id is chosen whatever the start time. */
  lemma KeynoteScenario(conv: string -> string, convDt: string -> string, remoteStart: string, organizerStart: string)
    ensures var sessions := [RemoteSession("id1", "Keynote", remoteStart)];
            MatchSession(BuildIndex(sessions, conv), SessionInfo("Keynote", organizerStart, false), convDt) == Some("id1")
  {
    var sessions := [RemoteSession("id1", "Keynote", remoteStart)];
    OtherwiseFirstInserted(sessions, conv, SessionInfo("Keynote", organizerStart, false), convDt, 0, 0);
  }

  /** Two remote "Panel" sessions at different converted starts and two duplicated organizer rows: each gets its own id. */
  lemma PanelScenario(conv: string -> string, convDt: string -> string, start1: string, start2: string,
                      organizerStart1: string, organizerStart2: string)
    requires conv(start1) != conv(start2)
    requires convDt(organizerStart1) == conv(start1) && convDt(organizerStart2) == conv(start2)
    ensures var sessions := [RemoteSession("id1", "Panel", start1), RemoteSession("id2", "Panel", start2)];
            && MatchSession(BuildIndex(sessions, conv), SessionInfo("Panel", organizerStart1, true), convDt) == Some("id1")
            && MatchSession(BuildIndex(sessions, conv), SessionInfo("Panel", organizerStart2, true), convDt) == Some("id2")
  {
    var sessions := [RemoteSession("id1", "Panel", start1), RemoteSession("id2", "Panel", start2)];
    DuplicateMatchesByStart(sessions, conv, SessionInfo("Panel", organizerStart1, true), convDt, 0);
    DuplicateMatchesByStart(sessions, conv, SessionInfo("Panel", organizerStart2, true), convDt, 1);
  }

  /** Row `k` has a title and no later titled row has its id, so its value is the one listed under that id. */
  ghost predicate LastTitledWithId(records: seq<OrganizerRecord>, k: nat)
  {
    && k < |records| && records[k].title.Some?
    && forall j :: k < j < |records| ==> !(records[j].title.Some? && records[j].id == records[k].id)
  }

  /** Some remote session carries title `t`. */
  ghost predicate RemoteTitle(sessions: seq<RemoteSession>, t: string)
  {
    exists i :: 0 <= i < |sessions| && sessions[i].title == t
  }

  /** Such a row's entry in the organizer listing: the only position holding its id. */
  lemma {:induction false} RowEntry(records: seq<OrganizerRecord>, k: nat) returns (j: nat)
    requires LastTitledWithId(records, k)
    ensures j < |GetAirtableSessions(records)|
    ensures GetAirtableSessions(records)[j] == Entry(records[k].id, InfoOf(records[k], records))
    ensures forall j' :: 0 <= j' < |GetAirtableSessions(records)| && GetAirtableSessions(records)[j'].key == records[k].id ==> j' == j
  {
    var org := GetAirtableSessions(records);
    CollectLastWins(records, records, k);
    j := Find(org, records[k].id);
  }

  /**
   A row as above whose title some remote session carries is updated with the id the
   matching rule chooses (row ids are unique in a table, so this covers every titled row there).
   */
  lemma {:induction false} RowUpdated(sessions: seq<RemoteSession>, records: seq<OrganizerRecord>,
                   conv: string -> string, convDt: string -> string, k: nat)
    requires LastTitledWithId(records, k) && RemoteTitle(sessions, records[k].title.value)
    ensures var idx := BuildIndex(sessions, conv);
            && MatchSession(idx, InfoOf(records[k], records), convDt).Some?
            && CodeUpdate(records[k].id, MatchSession(idx, InfoOf(records[k], records), convDt).value)
                 in Assigned(GetAirtableSessions(records), idx, convDt)
  {
    IndexTitles(sessions, conv, records[k].title.value);
    var j := RowEntry(records, k);
    AssignedComplete(GetAirtableSessions(records), BuildIndex(sessions, conv), convDt, j);
  }

  /** A row as above whose title no remote session carries is reported and never updated. */
  lemma {:induction false} RowReported(sessions: seq<RemoteSession>, records: seq<OrganizerRecord>,
                    conv: string -> string, convDt: string -> string, k: nat)
    requires LastTitledWithId(records, k) && !RemoteTitle(sessions, records[k].title.value)
    ensures var idx := BuildIndex(sessions, conv);
            var org := GetAirtableSessions(records);
            && records[k].id in Unmatched(org, idx, convDt)
            && forall u :: u in Assigned(org, idx, convDt) ==> u.recordId != records[k].id
  {
    var idx := BuildIndex(sessions, conv);
    var org := GetAirtableSessions(records);
    IndexTitles(sessions, conv, records[k].title.value);
    var j := RowEntry(records, k);
    AssignedComplete(org, idx, convDt, j);
    AssignedSound(org, idx, convDt);
    forall u | u in Assigned(org, idx, convDt) ensures u.recordId != records[k].id {
      var j' :| 0 <= j' < |org| && org[j'].key == u.recordId && MatchSession(idx, org[j'].value, convDt) == Some(u.sessionId);
      assert org[j'].value.title in idx;
    }
  }

  /** An update pairs a titled organizer row with a remote session of the same title. */
  lemma {:induction false} UpdatePairsTitle(sessions: seq<RemoteSession>, records: seq<OrganizerRecord>,
                         conv: string -> string, convDt: string -> string, u: CodeUpdate)
    requires u in Assigned(GetAirtableSessions(records), BuildIndex(sessions, conv), convDt)
    ensures exists i, k :: 0 <= i < |sessions| && 0 <= k < |records| && sessions[i].id == u.sessionId
                           && records[k].id == u.recordId && records[k].title == Some(sessions[i].title)
  {
    var idx := BuildIndex(sessions, conv);
    var org := GetAirtableSessions(records);
    AssignedSound(org, idx, convDt);
    var j :| 0 <= j < |org| && org[j].key == u.recordId && MatchSession(idx, org[j].value, convDt) == Some(u.sessionId);
    ChosenIdHasTitle(sessions, conv, org[j].value, convDt, u.sessionId);
    var i :| 0 <= i < |sessions| && sessions[i].title == org[j].value.title && sessions[i].id == u.sessionId;
    var k :| 0 <= k < |records| && records[k].title.Some? && org[j].key == records[k].id
             && org[j].value.title == records[k].title.value
             && org[j].value.startTime == records[k].start.GetOr("");
    assert records[k].title == Some(sessions[i].title);
  }

  /** Every titled organizer row is updated or reported. */
  lemma {:induction false} TitledRowsHandled(sessions: seq<RemoteSession>, records: seq<OrganizerRecord>,
                          conv: string -> string, convDt: string -> string)
    ensures var idx := BuildIndex(sessions, conv);
            var org := GetAirtableSessions(records);
            forall k :: 0 <= k < |records| && records[k].title.Some? ==>
              (exists u :: u in Assigned(org, idx, convDt) && u.recordId == records[k].id)
              || records[k].id in Unmatched(org, idx, convDt)
  {
    var idx := BuildIndex(sessions, conv);
    var org := GetAirtableSessions(records);
    forall k | 0 <= k < |records| && records[k].title.Some?
      ensures (exists u :: u in Assigned(org, idx, convDt) && u.recordId == records[k].id)
              || records[k].id in Unmatched(org, idx, convDt)
    {
      assert Contains(org, records[k].id);
      var j := Find(org, records[k].id);
      AssignedComplete(org, idx, convDt, j);
    }
  }

  /**
   `assign_codes_to_sessions`: index the remote sessions, list the organizer sessions,
   and run the matching loop.
   */
  method AssignCodesToSessions(sessions: seq<RemoteSession>, records: seq<OrganizerRecord>,
                               conv: string -> string, convDt: string -> string)
    returns (updates: seq<CodeUpdate>, unmatched: seq<string>)
    ensures updates == Assigned(GetAirtableSessions(records), BuildIndex(sessions, conv), convDt)
    ensures unmatched == Unmatched(GetAirtableSessions(records), BuildIndex(sessions, conv), convDt)
    ensures forall k: nat :: LastTitledWithId(records, k) && RemoteTitle(sessions, records[k].title.value) ==>
              MatchSession(BuildIndex(sessions, conv), InfoOf(records[k], records), convDt).Some?
              && CodeUpdate(records[k].id, MatchSession(BuildIndex(sessions, conv), InfoOf(records[k], records), convDt).value)
                   in updates
    ensures forall k: nat :: LastTitledWithId(records, k) && !RemoteTitle(sessions, records[k].title.value) ==>
              records[k].id in unmatched && forall u :: u in updates ==> u.recordId != records[k].id
    ensures forall u :: u in updates ==>
              exists i, k :: 0 <= i < |sessions| && 0 <= k < |records| && sessions[i].id == u.sessionId
                             && records[k].id == u.recordId && records[k].title == Some(sessions[i].title)
    ensures forall a, b :: 0 <= a < b < |updates| ==> updates[a].recordId != updates[b].recordId
    ensures forall k :: 0 <= k < |records| && records[k].title.Some? ==>
              (exists u :: u in updates && u.recordId == records[k].id) || records[k].id in unmatched
  {
    var idx := GetCventSessions(sessions, conv);
    var org := GetAirtableSessions(records);
    updates, unmatched := AssignCodes(idx, org, convDt);

    UpdatedAtMostOnce(org, idx, convDt);
    forall u | u in updates
      ensures exists i, k :: 0 <= i < |sessions| && 0 <= k < |records| && sessions[i].id == u.sessionId
                             && records[k].id == u.recordId && records[k].title == Some(sessions[i].title)
    {
      UpdatePairsTitle(sessions, records, conv, convDt, u);
    }
    TitledRowsHandled(sessions, records, conv, convDt);
    forall k: nat | LastTitledWithId(records, k)
      ensures RemoteTitle(sessions, records[k].title.value) ==>
                MatchSession(idx, InfoOf(records[k], records), convDt).Some?
                && CodeUpdate(records[k].id, MatchSession(idx, InfoOf(records[k], records), convDt).value) in updates
      ensures !RemoteTitle(sessions, records[k].title.value) ==>
                records[k].id in unmatched && forall u :: u in updates ==> u.recordId != records[k].id
    {
      if RemoteTitle(sessions, records[k].title.value) {
        RowUpdated(sessions, records, conv, convDt, k);
      } else {
        RowReported(sessions, records, conv, convDt, k);
      }
    }
  }
}
