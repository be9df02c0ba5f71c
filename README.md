# Speaker/session sync and session-id assignment, modelled in Dafny

The repository holds two small jobs that keep Airtable tables in step with Cvent.
This project models the decision logic of each. It does not model the HTTP and
Airtable calls around that logic.

**Speaker → mirror relationship planner** (`sessions_dedup_sync.py`).
Each speaker row lists the sessions it speaks at (`Speaking`) and the sessions it
moderates (`Moderating`). A link field may be absent, empty, a bare id or a list
of ids.

The job first builds a map from every existing mirror row to its row id. The key is
`speaker_session_role`, made from the row's first speaker link, its first session
link and its role. Rows missing any of the three are skipped, and a later row
overwrites an earlier one. The job then expands every speaker row into one
relationship per listed session and role. Each relationship is queued as an update
of the mapped mirror row when its key is in the map, and as a create otherwise.
Both queues are written in batches of ten.

With no speaker rows the job stops before reading the mirror table. The job has
no delete phase and no full-cleanup flag: mirror rows that no relationship
matches are left alone. The set of processed
keys is collected but never used; the model computes it and proves what it holds.

**Session-id assignment** (`main.py`).
The Cvent sessions are indexed by title. Each title maps to an insertion-ordered
dictionary from converted start time to session id, built with
`setdefault(title, {})[start] = id`. The Airtable rows that have a title are listed
by row id. Each carries its start time (`""` when absent) and whether its title
occurs on more than one row.

Each listed row then gets a session id when its title is indexed:

- When the title is duplicated and the row's converted start is a key of the
  title's sub-map, the row takes that entry.
- Otherwise it takes the sub-map's first-inserted value.

Rows whose title is not indexed are reported and left unchanged.

Python dictionaries keep insertion order, and re-assigning a key keeps its place.
The model therefore represents a dictionary as a sequence of entries (`OrderedMaps`).
It proves the consequence for the "first value" rule. That value is the id of the
LAST remote session whose title and converted start equal those of the FIRST
remote session with that title.

Modules: `Wrappers` (Option), `OrderedMaps`, `Batching`, `MirrorKeys` and
`SpeakerSessionPlan` for the first job; `TitleIndex`, `OrganizerSessions` and
`Assignment` for the second.

The loops of the source are methods with loop invariants. Each loop method is
proved equal to a recursive specification function over the inputs, or (for the
batch writer) characterised directly by its ensures; the two top-level runs compose
these methods. The properties are lemmas about the specification functions.

## Model

| member | source | states |
|---|---|---|
| `SpeakerSessionPlan.BuildExistingMap` | sessions_dedup_sync.py:66-75 | The lookup loop computes the existing-record map: a keyed row (first speaker, first session and role all non-empty) is mapped from `speaker_session_role` to its row id, in row order |
| `SpeakerSessionPlan.ExistingMapKeys` | sessions_dedup_sync.py:66-75 | A key is in the map exactly when some mirror row with non-empty speaker, session and role has that key |
| `SpeakerSessionPlan.ExistingMapLastWins` | sessions_dedup_sync.py:73-75 | The map holds the id of the last keyed row with a given key |
| `SpeakerSessionPlan.ExistingMapSound` | sessions_dedup_sync.py:66-75 | Every value in the map is the id of a keyed mirror row with that key, and no later keyed row has that key |
| `SpeakerSessionPlan.ExistingMapGrows` | sessions_dedup_sync.py:66-75 | Appending rows to the mirror table never removes a key from the map |
| `MirrorKeys.KeyInjective` | sessions_dedup_sync.py:107 | When neither id contains `_`, two keys are equal if and only if speaker, session and role are all equal |
| `MirrorKeys.KeyCollision` | sessions_dedup_sync.py:74 | With `_` inside ids, two different triples can produce the same key |
| `SpeakerSessionPlan.RecordContribution` | sessions_dedup_sync.py:90-94 | A bare id becomes a one-element list; an absent, blank or empty value contributes no relationship; a row contributes one relationship per listed session |
| `SpeakerSessionPlan.ExpandLength` | sessions_dedup_sync.py:83-151 | There is one relationship per entry of the normalised Speaking and Moderating lists |
| `SpeakerSessionPlan.ExpandSound` | sessions_dedup_sync.py:83-151 | Every relationship comes from a fetched speaker row that lists its session under its role |
| `SpeakerSessionPlan.ExpandComplete` | sessions_dedup_sync.py:97-107 | Every session a speaker row lists under a role yields that relationship |
| `SpeakerSessionPlan.BothRolesKept` | sessions_dedup_sync.py:107-139 | A session listed under both roles yields two relationships, keyed `..._Speaking` and `..._Moderating`, with different keys |
| `SpeakerSessionPlan.ClassifyPartition` | sessions_dedup_sync.py:106-119 | Each relationship is queued exactly once: the creates plus the updates are as many as the relationships |
| `SpeakerSessionPlan.CreatesSound` | sessions_dedup_sync.py:116-118 | Every queued create is the fields of a relationship whose key has no mirror row |
| `SpeakerSessionPlan.UpdatesSound` | sessions_dedup_sync.py:108-114 | Every queued update carries the mapped mirror row id and the fields of a relationship whose key is in the map |
| `SpeakerSessionPlan.ClassifyComplete` | sessions_dedup_sync.py:106-119 | Every relationship is queued: as an update of the mapped row when its key is in the map, otherwise as a create |
| `SpeakerSessionPlan.FieldsKeyOf` | sessions_dedup_sync.py:98-107 | The synthesised fields carry the relationship's key: first speaker, first session and role give back the key that was looked up |
| `SpeakerSessionPlan.NeverBoth` | sessions_dedup_sync.py:108-119 | No relationship is queued both as a create and as an update |
| `SpeakerSessionPlan.ProcessedIsQueuedKeys` | sessions_dedup_sync.py:80-119 | The processed set equals the set of keys of everything queued, creates and updates together |
| `SpeakerSessionPlan.QueueOne` | sessions_dedup_sync.py:97-119 | One inner-loop pass appends to the update queue when the key is mapped, otherwise to the create queue, and adds the key to the processed set |
| `SpeakerSessionPlan.QueueRole` | sessions_dedup_sync.py:89-119 | The inner loop over one role's normalised list extends the queues by exactly the classification of that role's relationships |
| `SpeakerSessionPlan.PlanRelationships` | sessions_dedup_sync.py:77-151 | The outer loop fills the create queue, the update queue and the processed set with the classification of all relationships, in visiting order |
| `Batching.WriteInBatches` | sessions_dedup_sync.py:159-167 | The slicing loop writes every element once, in order; every batch has 1 to 10 elements and all but the last are full; the running count is the list length |
| `SpeakerSessionPlan.SyncSpeakerSessions` | sessions_dedup_sync.py:52-184 | A run with no speaker rows writes nothing. Otherwise the batches, flattened, are exactly the planned creates and updates, each batched by ten. Creates plus updates equal the number of listed sessions. Every update targets an existing keyed mirror row with the same key |
| `SpeakerSessionPlan.SynthesizedFields` | sessions_dedup_sync.py:98-104 | Every queued row holds the speaker's name, its id as the only speaker link, one session that row lists under the role, the role and the speaker's channel |
| `SpeakerSessionPlan.UpdateOrigin` | sessions_dedup_sync.py:108-114 | The relationship behind each update, and the mirror row it overwrites, which has the same key and id |
| `SpeakerSessionPlan.UpdateTargetsSameTriple` | sessions_dedup_sync.py:106-114 | When ids hold no `_`, an update overwrites a mirror row with the same speaker, session and role as the fields it writes |
| `SpeakerSessionPlan.CreatesEmptyWhenAllMatched` | sessions_dedup_sync.py:106-118 | When every key is already mapped, nothing is created |
| `SpeakerSessionPlan.RerunCreatesNothing` | sessions_dedup_sync.py:66-151 | After a run's creates are written (whatever ids the table gives them), re-running with the same speaker rows creates nothing and updates every relationship |
| `OrderedMaps.Find` | main.py:88 | The position of a key in an insertion-ordered dictionary: no earlier entry has that key, and the position is the length when the key is absent |
| `OrderedMaps.Put` | main.py:88 | Dictionary assignment: the key then maps to the value and other keys are unchanged. An existing key keeps its position; a new key is appended. Distinct keys stay distinct |
| `OrderedMaps.PutKeepsFirstKey` | main.py:141 | An assignment never changes which key is first in the insertion order |
| `TitleIndex.BuildIndex` | main.py:84-88 | Every title in the index has a non-empty sub-dictionary |
| `TitleIndex.GetCventSessions` | main.py:84-90 | The indexing loop computes the title index of the remote sessions |
| `TitleIndex.IndexDistinct` | main.py:88 | No sub-dictionary holds a start time twice |
| `TitleIndex.IndexTitles` | main.py:84-88 | A title is indexed exactly when some remote session has it |
| `TitleIndex.IndexContains` | main.py:84-88 | A sub-dictionary has a start time exactly when some remote session has that title and that converted start |
| `TitleIndex.IndexLookupLast` | main.py:88 | `index[title][start]` is the id of the last remote session with that title and converted start |
| `TitleIndex.IndexEntrySound` | main.py:84-88 | Every entry of a sub-dictionary is the converted start and id of a remote session with that title |
| `TitleIndex.IndexFirstKey` | main.py:88 | The first key of a sub-dictionary is the converted start of the first remote session with that title |
| `TitleIndex.FirstIdForTitle` | main.py:141 | The first value for a title is the id of the last remote session whose title and converted start match those of the first session with that title |
| `OrganizerSessions.TitleCountPositive` | main.py:107 | A title's count is positive exactly when some row has that title |
| `OrganizerSessions.DuplicateIffTwoRows` | main.py:107-113 | `session_counts[t] > 1` exactly when two different rows have title `t` |
| `OrganizerSessions.CollectDistinct` | main.py:109-116 | The comprehension yields each row id at most once |
| `OrganizerSessions.CollectKeys` | main.py:109-116 | A row id is a key exactly when some row with that id has a title |
| `OrganizerSessions.CollectEntry` | main.py:110-114 | Every entry pairs a titled row's id with that row's title, start time (or `""`) and duplicate flag |
| `OrganizerSessions.CollectLastWins` | main.py:109-116 | Under a repeated row id, the last titled row with that id supplies the value |
| `OrganizerSessions.GetAirtableSessions` | main.py:107-116 | The keys are exactly the ids of titled rows, each once. Each value's title and start time (or `""`) come from such a row. `is_duplicate` holds exactly when two rows have that title |
| `Assignment.MatchSession` | main.py:135-141 | No id exactly when the title is not indexed; otherwise the id is a value of that title's sub-dictionary |
| `Assignment.AssignCodes` | main.py:130-146 | The matching loop issues the updates and reports the unmatched rows, in dictionary order |
| `Assignment.AssignPartition` | main.py:135-146 | Each row has exactly one outcome: the updates plus the unmatched reports are as many as the listed rows |
| `Assignment.AssignedSound` | main.py:135-143 | Every update gives a listed row exactly the id the matching rule chose for it |
| `Assignment.AssignedComplete` | main.py:135-146 | A row is updated with the chosen id when its title is indexed, and reported otherwise |
| `Assignment.UpdatedAtMostOnce` | main.py:130-143 | No row id is updated twice |
| `Assignment.ChosenIdHasTitle` | main.py:135-141 | A chosen id belongs to a remote session whose title equals the row's title |
| `Assignment.DuplicateMatchesByStart` | main.py:136-138 | A duplicated title whose converted start matches a remote session gets the id of the last such session |
| `Assignment.OtherwiseFirstInserted` | main.py:139-141 | A unique title, or a duplicated title with no remote session at its converted start, gets the first-inserted id |
| `Assignment.KeynoteScenario` | main.py:139-141 | With one remote "Keynote" and a non-duplicated row "Keynote", the row gets that id whatever the start times |
| `Assignment.PanelScenario` | main.py:136-138 | Two remote "Panel" sessions at different starts and two duplicated "Panel" rows at those starts: each row gets its own session's id |
| `Assignment.RowUpdated` | main.py:135-143 | A titled row (the last titled row with its id) whose title some remote session carries is updated with the id `MatchSession` chooses for it |
| `Assignment.RowReported` | main.py:135-146 | A titled row (the last titled row with its id) whose title no remote session carries is reported unmatched and never updated |
| `Assignment.UpdatePairsTitle` | main.py:135-143 | An update pairs a titled organizer row with a remote session that has the same title |
| `Assignment.TitledRowsHandled` | main.py:130-146 | Every titled organizer row is updated or reported |
| `Assignment.AssignCodesToSessions` | main.py:126-146 | Index, list and match. The updates and reports are exactly `Assigned`/`Unmatched` of the title index and the organizer listing. A titled row whose title some remote session carries is updated with the matching rule's id; any other titled row is reported and not updated (for the last titled row with each id, which is every titled row when ids are unique). Every update pairs rows of the same title, no row is updated twice, and every titled row is updated or reported |

## Left out

- The HTTP, OAuth and Airtable client calls (`table.all`, `batch_create`, `batch_update`, `update`, Cvent pagination) are left out as I/O. Their inputs and results are parameters and return values.
- Logging, `print`, `time.sleep` and environment variables with their defaults are left out: they produce no data.
- Failures are left out. The model assumes that every remote call succeeds and that every fetched record has the fields the code indexes without a default (`record['fields']` in sessions_dedup_sync.py:85; `session["title"]`, `["start"]` and `["id"]` in main.py:86-88). In the source, an exception from `batch_create` (sessions_dedup_sync.py:164) or `batch_update` (sessions_dedup_sync.py:179) ends the run through the handler at sessions_dedup_sync.py:193-195 and leaves the batches written before it in place. `main.py` has no handler, so a failing `table.update` (main.py:123, called at 143) ends the loop with the earlier rows already updated. The model does not describe these partially written states.
- The `LAST_SYNC_TIME` filter and the `last_sync_time` line written to `GITHUB_OUTPUT` are left out. They are clock and file I/O; the model receives the already filtered speaker rows.
- The date converters `convert_cvent_to_airtable_format` and `convert_datetime_format` are arbitrary function parameters. Time zones, `strptime` and `strftime` are not modelled. The two converters produce different formats in the source, so the model does not assume they agree.
- A link field whose value is neither a string nor a list (a number, say) is modelled like a bare id; only string ids are represented.
- `SpeakerSessionPlan.UpdateTargetsSameTriple`: only states triple equality under the assumption that ids hold no `_`, because `MirrorKeys.KeyCollision` shows it fails otherwise.
- `Batching.WriteInBatches`: does not state the number of batches (the ceiling of length over ten) as such; that number follows from `WellBatched` together with the flattening.
