/**
 The organizer-side session listing of the session-id assignment job: only rows
 that have a title are kept, keyed by row id, each with its title, its start time
 ("" when absent) and whether its title occurs on more than one kept row.
 */
module OrganizerSessions {
  import opened Wrappers
  import opened OrderedMaps

  /** An organizer row: its id and its title and start fields, either of which may be absent. */
  datatype OrganizerRecord = OrganizerRecord(id: string, title: Option<string>, start: Option<string>)

  datatype SessionInfo = SessionInfo(title: string, startTime: string, isDuplicate: bool)

  /** `session_counts[t]`: how many rows have title `t` (rows without a title are not counted). */
  function TitleCount(records: seq<OrganizerRecord>, t: string): nat
  {
    if |records| == 0 then 0
    else (if records[0].title == Some(t) then 1 else 0) + TitleCount(records[1..], t)
  }

  /** Two different rows carry title `t`. */
  ghost predicate TitleDuplicated(records: seq<OrganizerRecord>, t: string)
  {
    exists i, j :: 0 <= i < j < |records| && records[i].title == Some(t) && records[j].title == Some(t)
  }

  lemma {:induction false} TitleCountPositive(records: seq<OrganizerRecord>, t: string)
    ensures TitleCount(records, t) > 0 <==> exists i :: 0 <= i < |records| && records[i].title == Some(t)
  {
    if |records| > 0 {
      var rest := records[1..];
      TitleCountPositive(rest, t);
      if exists i :: 0 <= i < |rest| && rest[i].title == Some(t) {
        var i :| 0 <= i < |rest| && rest[i].title == Some(t);
        assert records[i + 1] == rest[i];
      }
      if exists i :: 0 <= i < |records| && records[i].title == Some(t) {
        var i :| 0 <= i < |records| && records[i].title == Some(t);
        if i > 0 {
          assert rest[i - 1] == records[i];
        }
      }
    }
  }

  /** The count exceeds one exactly when two different rows carry the title. */
  lemma {:induction false} DuplicateIffTwoRows(records: seq<OrganizerRecord>, t: string)
    ensures TitleCount(records, t) > 1 <==> TitleDuplicated(records, t)
  {
    if |records| > 0 {
      var rest := records[1..];
      if records[0].title == Some(t) {
        TitleCountPositive(rest, t);
        if exists j :: 0 <= j < |rest| && rest[j].title == Some(t) {
          var j :| 0 <= j < |rest| && rest[j].title == Some(t);
          assert records[j + 1] == rest[j];
          assert TitleDuplicated(records, t);
        }
        if TitleDuplicated(records, t) {
          var i, j :| 0 <= i < j < |records| && records[i].title == Some(t) && records[j].title == Some(t);
          assert rest[j - 1] == records[j];
        }
      } else {
        DuplicateIffTwoRows(rest, t);
        if TitleDuplicated(rest, t) {
          var i, j :| 0 <= i < j < |rest| && rest[i].title == Some(t) && rest[j].title == Some(t);
          assert records[i + 1] == rest[i] && records[j + 1] == rest[j];
        }
        if TitleDuplicated(records, t) {
          var i, j :| 0 <= i < j < |records| && records[i].title == Some(t) && records[j].title == Some(t);
          assert rest[i - 1] == records[i] && rest[j - 1] == records[j];
        }
      }
    }
  }

  /** The dictionary value for a kept row; the count is taken over all `records`. */
  function InfoOf(r: OrganizerRecord, records: seq<OrganizerRecord>): SessionInfo
    requires r.title.Some?
  {
    SessionInfo(r.title.value, r.start.GetOr(""), TitleCount(records, r.title.value) > 1)
  }

  /** The dictionary comprehension over the rows in `prefix`. */
  function Collect(prefix: seq<OrganizerRecord>, records: seq<OrganizerRecord>): OrderedMap<SessionInfo>
  {
    if |prefix| == 0 then []
    else
      var acc := Collect(prefix[..|prefix| - 1], records);
      var r := prefix[|prefix| - 1];
      if r.title.Some? then Put(acc, r.id, InfoOf(r, records)) else acc
  }

  /** The comprehension never holds a key twice. */
  lemma {:induction false} CollectDistinct(prefix: seq<OrganizerRecord>, records: seq<OrganizerRecord>)
    ensures DistinctKeys(Collect(prefix, records))
  {
    if |prefix| > 0 {
      CollectDistinct(prefix[..|prefix| - 1], records);
    }
  }

  /** The keys are exactly the ids of kept rows. */
  lemma {:induction false} CollectKeys(prefix: seq<OrganizerRecord>, records: seq<OrganizerRecord>, k: string)
    ensures Contains(Collect(prefix, records), k) <==>
            exists i :: 0 <= i < |prefix| && prefix[i].title.Some? && prefix[i].id == k
  {
    if |prefix| > 0 {
      var init := prefix[..|prefix| - 1];
      CollectKeys(init, records, k);
      if exists i :: 0 <= i < |init| && init[i].title.Some? && init[i].id == k {
        var i :| 0 <= i < |init| && init[i].title.Some? && init[i].id == k;
        assert prefix[i] == init[i];
      }
      if exists i :: 0 <= i < |prefix| && prefix[i].title.Some? && prefix[i].id == k {
        var i :| 0 <= i < |prefix| && prefix[i].title.Some? && prefix[i].id == k;
        if i < |init| {
          assert init[i] == prefix[i];
        }
      }
    }
  }

  /** Every entry is a kept row's id together with that row's value. */
  lemma {:induction false} CollectEntry(prefix: seq<OrganizerRecord>, records: seq<OrganizerRecord>, j: nat)
    requires j < |Collect(prefix, records)|
    ensures exists i :: 0 <= i < |prefix| && prefix[i].title.Some?
                        && Collect(prefix, records)[j] == Entry(prefix[i].id, InfoOf(prefix[i], records))
  {
    var init := prefix[..|prefix| - 1];
    var r := prefix[|prefix| - 1];
    var acc := Collect(init, records);
    var out := Collect(prefix, records);
    if r.title.Some? && out[j] == Entry(r.id, InfoOf(r, records)) {
      assert prefix[|prefix| - 1] == r;
    } else {
      if r.title.Some? {
        PutEntry(acc, r.id, InfoOf(r, records), j);
      }
      assert j < |acc| && out[j] == acc[j];
      CollectEntry(init, records, j);
      var i :| 0 <= i < |init| && init[i].title.Some? && acc[j] == Entry(init[i].id, InfoOf(init[i], records));
      assert prefix[i] == init[i];
    }
  }

  /** A kept row that no later kept row shares an id with supplies the value under its id. */
  lemma {:induction false} CollectLastWins(prefix: seq<OrganizerRecord>, records: seq<OrganizerRecord>, i: nat)
    requires i < |prefix| && prefix[i].title.Some?
    requires forall j :: i < j < |prefix| ==> !(prefix[j].title.Some? && prefix[j].id == prefix[i].id)
    ensures Contains(Collect(prefix, records), prefix[i].id)
    ensures Get(Collect(prefix, records), prefix[i].id) == InfoOf(prefix[i], records)
  {
    var init := prefix[..|prefix| - 1];
    if i < |prefix| - 1 {
      assert init[i] == prefix[i];
      CollectLastWins(init, records, i);
    }
  }

  /**
   `get_airtable_sessions`: kept rows only, keyed by row id; each value carries the
   row's title, its start time or "", and whether another kept row has that title.
   */
  function GetAirtableSessions(records: seq<OrganizerRecord>): (r: OrderedMap<SessionInfo>)
    ensures DistinctKeys(r)
    ensures forall k :: Contains(r, k) <==> exists i :: 0 <= i < |records| && records[i].title.Some? && records[i].id == k
    ensures forall j :: 0 <= j < |r| ==>
              exists i :: 0 <= i < |records| && records[i].title.Some? && r[j].key == records[i].id
                          && r[j].value.title == records[i].title.value
                          && r[j].value.startTime == records[i].start.GetOr("")
    ensures forall j :: 0 <= j < |r| ==> r[j].value.isDuplicate == TitleDuplicated(records, r[j].value.title)
  {
    var r := Collect(records, records);
    CollectDistinct(records, records);
    forall k ensures Contains(r, k) <==> exists i :: 0 <= i < |records| && records[i].title.Some? && records[i].id == k {
      CollectKeys(records, records, k);
    }
    forall j | 0 <= j < |r|
      ensures exists i :: 0 <= i < |records| && records[i].title.Some? && r[j] == Entry(records[i].id, InfoOf(records[i], records))
    {
      CollectEntry(records, records, j);
    }
    assert forall j :: 0 <= j < |r| ==> r[j].value.isDuplicate == TitleDuplicated(records, r[j].value.title) by {
      forall j | 0 <= j < |r| ensures r[j].value.isDuplicate == TitleDuplicated(records, r[j].value.title) {
        DuplicateIffTwoRows(records, r[j].value.title);
      }
    }
    r
  }
}
