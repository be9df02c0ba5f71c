/**
 The title index of the session-id assignment job: from the remote sessions'
 listing, a map from title to an insertion-ordered map from converted start
 time to remote session id, built with `index.setdefault(title, {})[conv(start)] = id`.
 */
module TitleIndex {
  import opened OrderedMaps

  datatype RemoteSession = RemoteSession(id: string, title: string, start: string)

  type Index = map<string, OrderedMap<string>>

  /** Every title present has a non-empty sub-map. */
  predicate NonEmptyEntries(idx: Index)
  {
    forall t :: t in idx ==> |idx[t]| > 0
  }

  /** One `setdefault(...)[...] = ...` step. */
  function AddSession(idx: Index, s: RemoteSession, conv: string -> string): Index
  {
    var sub := if s.title in idx then idx[s.title] else [];
    idx[s.title := Put(sub, conv(s.start), s.id)]
  }

  /** The index after the loop over `sessions`; `conv` is the timestamp converter. */
  function BuildIndex(sessions: seq<RemoteSession>, conv: string -> string): (idx: Index)
    ensures NonEmptyEntries(idx)
  {
    if |sessions| == 0 then map[]
    else AddSession(BuildIndex(sessions[..|sessions| - 1], conv), sessions[|sessions| - 1], conv)
  }

  /** The dictionary-building loop at the end of the remote session fetch (the paginated fetch itself is not modelled). */
  method GetCventSessions(sessions: seq<RemoteSession>, conv: string -> string) returns (idx: Index)
    ensures idx == BuildIndex(sessions, conv)
  {
    idx := map[];
    for i := 0 to |sessions|
      invariant idx == BuildIndex(sessions[..i], conv)
    {
      BuildIndexSnoc(sessions, conv, i);
      var s := sessions[i];
      var startTime := conv(s.start);
      var sub := if s.title in idx then idx[s.title] else [];
      idx := idx[s.title := Put(sub, startTime, s.id)];
    }
    assert sessions[..|sessions|] == sessions;
  }

  /** One more remote session is one more `AddSession` step. */
  lemma BuildIndexSnoc(sessions: seq<RemoteSession>, conv: string -> string, i: nat)
    requires i < |sessions|
    ensures BuildIndex(sessions[..i + 1], conv) == AddSession(BuildIndex(sessions[..i], conv), sessions[i], conv)
  {
    assert sessions[..i + 1][..i] == sessions[..i];
  }

  /** A title no remote session carries is not in the index. */
  lemma {:induction false} TitleAbsent(sessions: seq<RemoteSession>, conv: string -> string, t: string)
    requires forall j :: 0 <= j < |sessions| ==> sessions[j].title != t
    ensures t !in BuildIndex(sessions, conv)
  {
    if |sessions| > 0 {
      var init := sessions[..|sessions| - 1];
      assert forall j :: 0 <= j < |init| ==> init[j] == sessions[j];
      TitleAbsent(init, conv, t);
    }
  }

  /** Each sub-map of the index has distinct keys. */
  lemma {:induction false} IndexDistinct(sessions: seq<RemoteSession>, conv: string -> string)
    ensures forall t :: t in BuildIndex(sessions, conv) ==> DistinctKeys(BuildIndex(sessions, conv)[t])
  {
    if |sessions| > 0 {
      IndexDistinct(sessions[..|sessions| - 1], conv);
    }
  }

  /** A title is in the index exactly when some remote session carries it. */
  lemma {:induction false} IndexTitles(sessions: seq<RemoteSession>, conv: string -> string, t: string)
    ensures t in BuildIndex(sessions, conv) <==> exists i :: 0 <= i < |sessions| && sessions[i].title == t
  {
    if |sessions| > 0 {
      var init := sessions[..|sessions| - 1];
      IndexTitles(init, conv, t);
      if exists i :: 0 <= i < |init| && init[i].title == t {
        var i :| 0 <= i < |init| && init[i].title == t;
        assert sessions[i] == init[i];
      }
      if exists i :: 0 <= i < |sessions| && sessions[i].title == t {
        var i :| 0 <= i < |sessions| && sessions[i].title == t;
        if i < |init| {
          assert init[i] == sessions[i];
        }
      }
    }
  }

  /** Some remote session has title `t` and converted start `k`. */
  ghost predicate Listed(sessions: seq<RemoteSession>, conv: string -> string, t: string, k: string)
  {
    exists i :: 0 <= i < |sessions| && sessions[i].title == t && conv(sessions[i].start) == k
  }

  lemma ListedSnoc(sessions: seq<RemoteSession>, conv: string -> string, t: string, k: string)
    requires |sessions| > 0
    ensures var s := sessions[|sessions| - 1];
            Listed(sessions, conv, t, k) == (Listed(sessions[..|sessions| - 1], conv, t, k) || (s.title == t && conv(s.start) == k))
  {
    var init := sessions[..|sessions| - 1];
    if Listed(init, conv, t, k) {
      var i :| 0 <= i < |init| && init[i].title == t && conv(init[i].start) == k;
      assert sessions[i] == init[i];
    }
    if Listed(sessions, conv, t, k) {
      var i :| 0 <= i < |sessions| && sessions[i].title == t && conv(sessions[i].start) == k;
      if i < |init| {
        assert init[i] == sessions[i];
      }
    }
  }

  /** A sub-map has a key exactly when some remote session has that title and that converted start. */
  lemma {:induction false} IndexContains(sessions: seq<RemoteSession>, conv: string -> string, t: string, k: string)
    ensures (t in BuildIndex(sessions, conv) && Contains(BuildIndex(sessions, conv)[t], k)) <==> Listed(sessions, conv, t, k)
  {
    if |sessions| > 0 {
      var init := sessions[..|sessions| - 1];
      var s := sessions[|sessions| - 1];
      var idx := BuildIndex(init, conv);
      IndexContains(init, conv, t, k);
      ListedSnoc(sessions, conv, t, k);
      if s.title == t {
        var sub := if t in idx then idx[t] else [];
        assert Contains(sub, k) == (t in idx && Contains(idx[t], k));
      }
    }
  }

  /** `index[title][conv(start)]` is the id of the last remote session with that title and converted start. */
  lemma {:induction false} IndexLookupLast(sessions: seq<RemoteSession>, conv: string -> string, i: nat)
    requires i < |sessions|
    requires forall j :: i < j < |sessions| ==>
               sessions[j].title != sessions[i].title || conv(sessions[j].start) != conv(sessions[i].start)
    ensures var idx := BuildIndex(sessions, conv);
            && sessions[i].title in idx
            && Contains(idx[sessions[i].title], conv(sessions[i].start))
            && Get(idx[sessions[i].title], conv(sessions[i].start)) == sessions[i].id
  {
    var init := sessions[..|sessions| - 1];
    if i < |sessions| - 1 {
      assert init[i] == sessions[i];
      IndexLookupLast(init, conv, i);
    }
  }

  /** Every entry of a sub-map is the converted start and id of a remote session with exactly that title. */
  lemma {:induction false} IndexEntrySound(sessions: seq<RemoteSession>, conv: string -> string, t: string, j: nat)
    requires t in BuildIndex(sessions, conv) && j < |BuildIndex(sessions, conv)[t]|
    ensures exists i :: 0 <= i < |sessions| && sessions[i].title == t
                        && BuildIndex(sessions, conv)[t][j] == Entry(conv(sessions[i].start), sessions[i].id)
  {
    var init := sessions[..|sessions| - 1];
    var s := sessions[|sessions| - 1];
    var idx := BuildIndex(init, conv);
    var entry := BuildIndex(sessions, conv)[t][j];
    if s.title == t && entry == Entry(conv(s.start), s.id) {
      assert sessions[|sessions| - 1].title == t;
    } else {
      if s.title == t {
        var sub := if t in idx then idx[t] else [];
        PutEntry(sub, conv(s.start), s.id, j);
      }
      assert t in idx && j < |idx[t]| && entry == idx[t][j];
      IndexEntrySound(init, conv, t, j);
      var i :| 0 <= i < |init| && init[i].title == t && idx[t][j] == Entry(conv(init[i].start), init[i].id);
      assert sessions[i] == init[i];
    }
  }

  /** The first-inserted key of a sub-map is the converted start of the first remote session with that title. */
  lemma {:induction false} IndexFirstKey(sessions: seq<RemoteSession>, conv: string -> string, i: nat)
    requires i < |sessions|
    requires forall j :: 0 <= j < i ==> sessions[j].title != sessions[i].title
    ensures var idx := BuildIndex(sessions, conv);
            sessions[i].title in idx && |idx[sessions[i].title]| > 0
            && idx[sessions[i].title][0].key == conv(sessions[i].start)
  {
    var init := sessions[..|sessions| - 1];
    var t := sessions[i].title;
    var s := sessions[|sessions| - 1];
    if i == |sessions| - 1 {
      assert forall j :: 0 <= j < |init| ==> init[j] == sessions[j];
      TitleAbsent(init, conv, t);
    } else {
      assert init[i] == sessions[i];
      IndexFirstKey(init, conv, i);
      if s.title == t {
        PutKeepsFirstKey(BuildIndex(init, conv)[t], conv(s.start), s.id);
      }
    }
  }

  /**
   The first-inserted id for a title (`next(iter(index[title].values()))`) is the id of
   the LAST remote session whose title and converted start equal those of the FIRST
   session with that title: re-assigning a key keeps its place and replaces its value.
   */
  lemma FirstIdForTitle(sessions: seq<RemoteSession>, conv: string -> string, first: nat, last: nat)
    requires first <= last < |sessions|
    requires forall j :: 0 <= j < first ==> sessions[j].title != sessions[first].title
    requires sessions[last].title == sessions[first].title
    requires conv(sessions[last].start) == conv(sessions[first].start)
    requires forall j :: last < j < |sessions| ==>
               sessions[j].title != sessions[last].title || conv(sessions[j].start) != conv(sessions[last].start)
    ensures var idx := BuildIndex(sessions, conv);
            sessions[first].title in idx && |idx[sessions[first].title]| > 0
            && First(idx[sessions[first].title]) == sessions[last].id
  {
    var idx := BuildIndex(sessions, conv);
    var t := sessions[first].title;
    IndexFirstKey(sessions, conv, first);
    IndexLookupLast(sessions, conv, last);
    ContainsAt(idx[t], 0);
  }
}
