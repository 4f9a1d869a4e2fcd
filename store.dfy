/**
 * The list logic of the data layer, with the document database reduced to
 * two in-memory collections (tasks and tags) and a counter that hands out
 * fresh document ids.
 *
 * Covered: tag-name normalisation and find-or-create, the shaping of new
 * and updated task documents, the per-day progress upsert, and the read
 * path that de-duplicates and chunks tag ids, re-attaches tags to tasks and
 * sorts tasks newest first.
 */
module Store {
  import opened Types
  import opened Text
  import opened Seqs

  /** The database's limit on the number of values of an `in` filter. */
  const IN_QUERY_LIMIT: nat := 30

  /** `t.toLowerCase().trim()`. */
  function NormalizeName(s: string): string
  {
    Trim(ToLower(s))
  }

  /** A name as it is stored: lower case, trimmed and not empty. */
  predicate IsTagName(s: string)
  {
    s != [] && IsTrimmed(s) && IsLower(s)
  }

  lemma TrimKeepsLower(s: string)
    requires IsLower(s)
    ensures IsLower(Trim(s))
  {
    var a := TrimStart(s);
    assert forall i | 0 <= i < |a| :: a[i] == s[LeadingSpace(s) + i];
    assert forall i | 0 <= i < |TrimEnd(a)| :: TrimEnd(a)[i] == a[i];
  }

  /** Normalising yields a stored-form name unless it yields the empty string. */
  lemma NormalizeNameForm(s: string)
    ensures NormalizeName(s) != [] ==> IsTagName(NormalizeName(s))
  {
    ToLowerIsLower(s);
    TrimKeepsLower(ToLower(s));
  }

  /** A stored-form name normalises to itself. */
  lemma NormalizeTagName(s: string)
    requires IsTagName(s)
    ensures NormalizeName(s) == s
  {
    ToLowerOfLower(s);
    TrimOfTrimmed(s);
  }

  /** `names.map(f).filter(Boolean)` for string results. */
  function NonEmptyImages(names: seq<string>, f: string -> string): (r: seq<string>)
    ensures forall i | 0 <= i < |r| :: r[i] != []
  {
    if names == [] then []
    else
      var init := NonEmptyImages(names[..|names| - 1], f);
      var last := f(names[|names| - 1]);
      if last == [] then init else init + [last]
  }

  /** Some name of `names` is mapped to `n`. */
  predicate ImageOf(names: seq<string>, f: string -> string, n: string)
  {
    exists i | 0 <= i < |names| :: f(names[i]) == n
  }

  lemma {:induction false} NonEmptyImagesMembers(names: seq<string>, f: string -> string, n: string)
    ensures n in NonEmptyImages(names, f) <==> n != [] && ImageOf(names, f, n)
    decreases |names|
  {
    if names != [] {
      var init := names[..|names| - 1];
      var last := f(names[|names| - 1]);
      NonEmptyImagesMembers(init, f, n);
      assert NonEmptyImages(names, f) == NonEmptyImages(init, f) + (if last == [] then [] else [last]);
      if n != [] && ImageOf(names, f, n) {
        var i :| 0 <= i < |names| && f(names[i]) == n;
        if i < |init| {
          assert f(init[i]) == n;
        }
      }
      if ImageOf(init, f, n) {
        var i :| 0 <= i < |init| && f(init[i]) == n;
        assert f(names[i]) == n;
      }
    }
  }

  /** `tagNames.map(normalise).filter(Boolean)`. */
  function NonEmptyNormalized(names: seq<string>): (r: seq<string>)
    ensures forall i | 0 <= i < |r| :: IsTagName(r[i])
  {
    var r := NonEmptyImages(names, NormalizeName);
    assert forall i | 0 <= i < |r| :: IsTagName(r[i]) by {
      forall i | 0 <= i < |r| ensures IsTagName(r[i]) {
        NonEmptyImagesMembers(names, NormalizeName, r[i]);
        var j :| 0 <= j < |names| && NormalizeName(names[j]) == r[i];
        NormalizeNameForm(names[j]);
      }
    }
    r
  }

  lemma NonEmptyNormalizedMembers(names: seq<string>, n: string)
    ensures n in NonEmptyNormalized(names) <==> n != [] && ImageOf(names, NormalizeName, n)
  {
    NonEmptyImagesMembers(names, NormalizeName, n);
  }

  /**
   * `[...new Set(names.map(normalise).filter(Boolean))]`: the distinct
   * non-empty normalised names, in order of first occurrence.
   */
  function NormalizeTagNames(names: seq<string>): (r: seq<string>)
    ensures Distinct(r)
    ensures forall i | 0 <= i < |r| :: IsTagName(r[i])
  {
    Dedupe(NonEmptyNormalized(names))
  }

  /** The normalised list holds exactly the non-empty normal forms of the names. */
  lemma NormalizeTagNamesMembers(names: seq<string>, n: string)
    ensures n in NormalizeTagNames(names) <==> n != [] && ImageOf(names, NormalizeName, n)
  {
    NonEmptyNormalizedMembers(names, n);
    var s := NonEmptyNormalized(names);
    if n in s {
      var i :| 0 <= i < |s| && s[i] == n;
    }
  }

  /** Normalising an already normalised list changes nothing. */
  lemma NormalizeTagNamesIdempotent(names: seq<string>)
    ensures NormalizeTagNames(NormalizeTagNames(names)) == NormalizeTagNames(names)
  {
    var u := NormalizeTagNames(names);
    forall i | 0 <= i < |u| ensures NormalizeName(u[i]) == u[i] {
      NormalizeTagName(u[i]);
    }
    NonEmptyImagesIdentity(u, NormalizeName);
    DedupeDistinct(u);
  }

  /** Mapping non-empty fixed points and dropping empties keeps the list as it is. */
  lemma {:induction false} NonEmptyImagesIdentity(u: seq<string>, f: string -> string)
    requires forall i | 0 <= i < |u| :: u[i] != [] && f(u[i]) == u[i]
    ensures NonEmptyImages(u, f) == u
    decreases |u|
  {
    if u != [] {
      NonEmptyImagesIdentity(u[..|u| - 1], f);
      assert u == u[..|u| - 1] + [u[|u| - 1]];
    }
  }

  /** The ids of the stored tags whose name is among `names`, in store order. */
  function ExistingIds(tags: seq<Tag>, names: seq<string>): seq<Id>
  {
    if tags == [] then []
    else ExistingIds(tags[..|tags| - 1], names) + (if tags[|tags| - 1].name in names then [tags[|tags| - 1].id] else [])
  }

  /** The names the stored tags carry. */
  function NamesOf(tags: seq<Tag>): set<string>
  {
    set t | t in tags :: t.name
  }

  /** `names.filter(name => !known.has(name))`. */
  function NewNames(names: seq<string>, known: set<string>): (r: seq<string>)
    ensures |r| <= |names|
    ensures forall i | 0 <= i < |r| :: r[i] in names && r[i] !in known
  {
    if names == [] then []
    else
      var init := NewNames(names[..|names| - 1], known);
      assert forall i | 0 <= i < |init| :: init[i] in names;
      init + (if names[|names| - 1] !in known then [names[|names| - 1]] else [])
  }

  lemma {:induction false} NewNamesMembers(names: seq<string>, known: set<string>, n: string)
    ensures n in NewNames(names, known) <==> n in names && n !in known
    decreases |names|
  {
    if names != [] {
      var init := names[..|names| - 1];
      NewNamesMembers(init, known, n);
      assert names == init + [names[|names| - 1]];
    }
  }

  lemma {:induction false} NewNamesDistinct(names: seq<string>, known: set<string>)
    requires Distinct(names)
    ensures Distinct(NewNames(names, known))
    decreases |names|
  {
    if names != [] {
      var init := names[..|names| - 1];
      assert forall i, j | 0 <= i < j < |init| :: init[i] == names[i] && init[j] == names[j];
      NewNamesDistinct(init, known);
      NewNamesMembers(init, known, names[|names| - 1]);
    }
  }

  /** Filtering on two sets that agree on the names filters alike. */
  lemma {:induction false} NewNamesAgree(names: seq<string>, k1: set<string>, k2: set<string>)
    requires forall n | n in names :: n in k1 <==> n in k2
    ensures NewNames(names, k1) == NewNames(names, k2)
    decreases |names|
  {
    if names != [] {
      NewNamesAgree(names[..|names| - 1], k1, k2);
    }
  }

  /** Tags for `names` with consecutive ids from `first`. */
  function FreshTags(names: seq<string>, first: nat): (r: seq<Tag>)
    ensures |r| == |names|
    ensures forall i | 0 <= i < |r| :: r[i] == Tag(first + i, names[i])
  {
    if names == [] then [] else FreshTags(names[..|names| - 1], first) + [Tag(first + |names| - 1, names[|names| - 1])]
  }

  function Ids(tags: seq<Tag>): (r: seq<Id>)
    ensures |r| == |tags| && forall i | 0 <= i < |tags| :: r[i] == tags[i].id
  {
    if tags == [] then [] else Ids(tags[..|tags| - 1]) + [tags[|tags| - 1].id]
  }

  /** One more name adds one tag, numbered next, and its id. */
  lemma FreshTagsStep(names: seq<string>, k: nat, first: nat)
    requires k < |names|
    ensures FreshTags(names[..k + 1], first) == FreshTags(names[..k], first) + [Tag(first + k, names[k])]
    ensures Ids(FreshTags(names[..k + 1], first)) == Ids(FreshTags(names[..k], first)) + [first + k]
  {
    assert names[..k + 1][..k] == names[..k];
  }

  /** The tag documents of one batch and their ids, numbered from `first`. */
  method BuildTagBatch(names: seq<string>, first: nat) returns (created: seq<Tag>, ids: seq<Id>)
    ensures created == FreshTags(names, first)
    ensures ids == Ids(created)
  {
    created := [];
    ids := [];
    for k := 0 to |names|
      invariant created == FreshTags(names[..k], first)
      invariant ids == Ids(created)
    {
      FreshTagsStep(names, k, first);
      created := created + [Tag(first + k, names[k])];
      ids := ids + [first + k];
    }
    assert names[..|names|] == names;
  }

  /** The stored tag with id `id`, if any. */
  function LookupTag(tags: seq<Tag>, id: Id): (r: Option<Tag>)
    ensures r.Some? ==> r.value in tags && r.value.id == id
    ensures r.None? ==> forall t | t in tags :: t.id != id
  {
    if tags == [] then None
    else if tags[0].id == id then Some(tags[0])
    else LookupTag(tags[1..], id)
  }

  /**
   * `tagIds.map(id => tagsMap.get(id)).filter(Boolean)`: the tags of `ids`
   * in order, unknown ids dropped.
   */
  function ResolveTags(ids: seq<Id>, tags: seq<Tag>): (r: seq<Tag>)
    ensures |r| <= |ids|
    ensures forall t | t in r :: t in tags && t.id in ids
  {
    if ids == [] then []
    else
      var init := ResolveTags(ids[..|ids| - 1], tags);
      assert forall i | 0 <= i < |ids| - 1 :: ids[..|ids| - 1][i] == ids[i];
      match LookupTag(tags, ids[|ids| - 1])
      case None => init
      case Some(t) => init + [t]
  }

  /** A resolved tag list keeps exactly the known ids, in their order. */
  lemma {:induction false} ResolveTagsIds(ids: seq<Id>, tags: seq<Tag>)
    ensures Ids(ResolveTags(ids, tags)) == Known(ids, tags)
    decreases |ids|
  {
    if ids != [] {
      ResolveTagsIds(ids[..|ids| - 1], tags);
      var r := ResolveTags(ids, tags);
      var init := ResolveTags(ids[..|ids| - 1], tags);
      if LookupTag(tags, ids[|ids| - 1]).Some? {
        assert r[..|r| - 1] == init;
      }
    }
  }

  /** The ids of `ids` that some stored tag carries, in order. */
  function Known(ids: seq<Id>, tags: seq<Tag>): seq<Id>
  {
    if ids == [] then []
    else Known(ids[..|ids| - 1], tags) + (if exists t | t in tags :: t.id == ids[|ids| - 1] then [ids[|ids| - 1]] else [])
  }

  /** `logProgress`'s upsert: overwrite the entry with the same date, or append. */
  function Upsert(progress: seq<ProgressLog>, log: ProgressLog): (r: seq<ProgressLog>)
  {
    var i := FindDate(progress, log.date);
    if i < |progress| then progress[i := log] else progress + [log]
  }

  /** `findIndex(p => p.date === date)`, with `|progress|` for -1. */
  function FindDate(progress: seq<ProgressLog>, date: Day): (i: nat)
    ensures i <= |progress|
    ensures i < |progress| ==> progress[i].date == date
    ensures forall j | 0 <= j < i :: progress[j].date != date
  {
    if progress == [] then 0
    else if progress[0].date == date then 0
    else 1 + FindDate(progress[1..], date)
  }

  /** At most one entry per date. */
  predicate UniqueDates(progress: seq<ProgressLog>)
  {
    forall i, j | 0 <= i < j < |progress| :: progress[i].date != progress[j].date
  }

  /**
   * An existing date is overwritten in place, value replaced and not added,
   * with every other entry and the length unchanged; a new date is appended.
   */
  lemma UpsertShape(progress: seq<ProgressLog>, log: ProgressLog)
    ensures HasLogOn(Some(progress), log.date) ==>
              |Upsert(progress, log)| == |progress| &&
              exists i | 0 <= i < |progress| :: progress[i].date == log.date && Upsert(progress, log) == progress[i := log]
    ensures !HasLogOn(Some(progress), log.date) ==> Upsert(progress, log) == progress + [log]
  {
    var i := FindDate(progress, log.date);
    if HasLogOn(Some(progress), log.date) {
      var k :| 0 <= k < |progress| && progress[k].date == log.date;
      assert i <= k;
    }
  }

  /** After the upsert the date has exactly the logged value, and dates stay unique. */
  lemma UpsertKeepsUniqueDates(progress: seq<ProgressLog>, log: ProgressLog)
    requires UniqueDates(progress)
    ensures UniqueDates(Upsert(progress, log))
    ensures log in Upsert(progress, log)
    ensures forall e | e in Upsert(progress, log) && e.date == log.date :: e == log
    ensures forall e | e in progress && e.date != log.date :: e in Upsert(progress, log)
  {
    var r := Upsert(progress, log);
    var i := FindDate(progress, log.date);
    if i == |progress| {
      assert r[|progress|] == log;
    } else {
      assert r[i] == log;
      forall e | e in progress && e.date != log.date ensures e in r {
        var k :| 0 <= k < |progress| && progress[k] == e;
        assert r[k] == e;
      }
    }
  }

  /** Replacing one entry changes the sum by the difference of the two values. */
  lemma {:induction false} SumValuesUpdate(s: seq<ProgressLog>, i: nat, x: ProgressLog)
    requires i < |s|
    ensures SumValues(s[i := x]) == SumValues(s) - s[i].value + x.value
    decreases |s|
  {
    var n := |s| - 1;
    if i < n {
      assert s[i := x][..n] == s[..n][i := x];
      SumValuesUpdate(s[..n], i, x);
    } else {
      assert s[i := x][..n] == s[..n];
    }
  }

  /** The progress total changes by the new value minus the value it replaces. */
  lemma UpsertSum(progress: seq<ProgressLog>, log: ProgressLog)
    ensures var i := FindDate(progress, log.date);
            SumValues(Upsert(progress, log)) ==
              SumValues(progress) + log.value - (if i < |progress| then progress[i].value else 0.0)
  {
    var i := FindDate(progress, log.date);
    if i < |progress| {
      SumValuesUpdate(progress, i, log);
    } else {
      assert (progress + [log])[..|progress|] == progress;
    }
  }

  /** The position of the task `id`, `|tasks|` when there is none. */
  function TaskIndex(tasks: seq<Task>, id: Id): (i: nat)
    ensures i <= |tasks|
    ensures i < |tasks| ==> tasks[i].id == id
    ensures forall j | 0 <= j < i :: tasks[j].id != id
  {
    if tasks == [] then 0
    else if tasks[0].id == id then 0
    else 1 + TaskIndex(tasks[1..], id)
  }

  /** The fields of `addTask`'s argument; `tags` are names. */
  datatype NewTask = NewTask(
    title: string,
    description: Option<string>,
    dueDate: Option<Instant>,
    completed: bool,
    projectId: Id,
    recurrence: Option<Recurrence>,
    goal: Option<Goal>,
    tags: seq<string>)

  /**
   * The fields `updateTask` may be given: `None` leaves a field alone, and
   * an inner `None` writes null.
   */
  datatype TaskPatch = TaskPatch(
    title: Option<string>,
    description: Option<Option<string>>,
    dueDate: Option<Option<Instant>>,
    completed: Option<bool>,
    projectId: Option<Id>,
    recurrence: Option<Option<Recurrence>>,
    goal: Option<Option<Goal>>,
    progress: Option<Option<seq<ProgressLog>>>,
    tags: Option<seq<string>>)

  /** The document `addTask` writes. */
  function NewTaskDocument(data: NewTask, id: Id, tagIds: seq<Id>, now: Instant): (t: Task)
    ensures t.progress == (if data.goal.Some? then Some([]) else None)
  {
    Task(id, data.title, data.description, data.dueDate, data.completed, data.projectId, tagIds, [],
         data.recurrence, data.goal, if data.goal.Some? then Some([]) else None, now, now)
  }

  /** `{ ...task, ...dataToUpdate }`: supplied fields replace, the rest stay. */
  function ApplyPatch(t: Task, p: TaskPatch, tagIds: Option<seq<Id>>, now: Instant): Task
  {
    t.(title := p.title.GetOr(t.title),
       description := p.description.GetOr(t.description),
       dueDate := p.dueDate.GetOr(t.dueDate),
       completed := p.completed.GetOr(t.completed),
       projectId := p.projectId.GetOr(t.projectId),
       recurrence := p.recurrence.GetOr(t.recurrence),
       goal := p.goal.GetOr(t.goal),
       progress := p.progress.GetOr(t.progress),
       tagIds := tagIds.GetOr(t.tagIds),
       updatedAt := now)
  }

  /** The tag ids of a patched task change iff the patch supplies tags. */
  lemma PatchTagIds(t: Task, p: TaskPatch, tagIds: Option<seq<Id>>, now: Instant)
    requires p.tags.Some? <==> tagIds.Some?
    ensures p.tags.None? ==> ApplyPatch(t, p, tagIds, now).tagIds == t.tagIds
    ensures p.tags.Some? ==> ApplyPatch(t, p, tagIds, now).tagIds == tagIds.value
    ensures ApplyPatch(t, p, tagIds, now).id == t.id && ApplyPatch(t, p, tagIds, now).createdAt == t.createdAt
  {
  }

  /** A task as read back: its tags resolved from its tag ids. */
  function WithTags(t: Task, tags: seq<Tag>): Task
  {
    t.(tags := ResolveTags(t.tagIds, tags))
  }

  function AllWithTags(tasks: seq<Task>, tags: seq<Tag>): (r: seq<Task>)
    ensures |r| == |tasks| && forall i | 0 <= i < |tasks| :: r[i] == WithTags(tasks[i], tags)
  {
    if tasks == [] then [] else AllWithTags(tasks[..|tasks| - 1], tags) + [WithTags(tasks[|tasks| - 1], tags)]
  }

  /** The sort key that puts the newest task first. */
  function NewestFirst(t: Task): int
  {
    -t.createdAt
  }

  /** All tag ids of the tasks, in order. */
  function AllTagIds(tasks: seq<Task>): seq<Id>
  {
    if tasks == [] then [] else AllTagIds(tasks[..|tasks| - 1]) + tasks[|tasks| - 1].tagIds
  }

  /** Splits `ids` into consecutive chunks of at most `IN_QUERY_LIMIT` ids. */
  method ChunkIds(ids: seq<Id>) returns (chunks: seq<seq<Id>>)
    ensures Flatten(chunks) == ids
    ensures forall k | 0 <= k < |chunks| :: 1 <= |chunks[k]| <= IN_QUERY_LIMIT
    ensures forall k | 0 <= k < |chunks| - 1 :: |chunks[k]| == IN_QUERY_LIMIT
  {
    chunks := [];
    var i := 0;
    while i < |ids|
      invariant i <= |ids| ==> i == |chunks| * IN_QUERY_LIMIT && forall k | 0 <= k < |chunks| :: |chunks[k]| == IN_QUERY_LIMIT
      invariant i > |ids| ==> |chunks| > 0 && forall k | 0 <= k < |chunks| - 1 :: |chunks[k]| == IN_QUERY_LIMIT
      invariant Flatten(chunks) == ids[..if i <= |ids| then i else |ids|]
      invariant forall k | 0 <= k < |chunks| :: 1 <= |chunks[k]| <= IN_QUERY_LIMIT
    {
      var end := if i + IN_QUERY_LIMIT <= |ids| then i + IN_QUERY_LIMIT else |ids|;
      FlattenSnoc(chunks, ids[i..end]);
      assert ids[..i] + ids[i..end] == ids[..end];
      chunks := chunks + [ids[i..end]];
      i := i + IN_QUERY_LIMIT;
    }
    assert ids[..|ids|] == ids;
  }

  /** Stored tags: distinct ids below `next`, distinct names in stored form. */
  predicate TagsValid(tags: seq<Tag>, next: nat)
  {
    (forall i, j | 0 <= i < j < |tags| :: tags[i].id != tags[j].id && tags[i].name != tags[j].name) &&
    (forall i | 0 <= i < |tags| :: tags[i].id < next && IsTagName(tags[i].name))
  }

  /** Stored tasks: distinct ids below `next`. */
  predicate TasksValid(tasks: seq<Task>, next: nat)
  {
    (forall i, j | 0 <= i < j < |tasks| :: tasks[i].id != tasks[j].id) &&
    (forall i | 0 <= i < |tasks| :: tasks[i].id < next)
  }

  /** The tags `findOrCreateTags` writes for the normalised names `u`. */
  function CreatedTags(tags: seq<Tag>, next: nat, u: seq<string>): (r: seq<Tag>)
    ensures |r| == |NewNames(u, NamesOf(tags))|
  {
    FreshTags(NewNames(u, NamesOf(tags)), next)
  }

  /** What `findOrCreateTags` resolves to: the ids, and the tags it creates. */
  datatype TagOutcome = TagOutcome(ids: seq<Id>, created: seq<Tag>)

  /**
   * The outcome of `findOrCreateTags` on a store holding `tags`: nothing for
   * no names, a query error for zero or too many distinct names, and
   * otherwise the ids of the existing tags followed by those of new tags.
   */
  function FindOrCreate(tags: seq<Tag>, next: nat, names: seq<string>): Result<TagOutcome>
  {
    if names == [] then Success(TagOutcome([], []))
    else
      var u := NormalizeTagNames(names);
      if u == [] then Failure("Invalid Query. A non-empty array is required for 'in' filters.")
      else if |u| > IN_QUERY_LIMIT then Failure("Invalid Query. 'in' filters support a maximum of 30 elements in the value array.")
      else
        var created := CreatedTags(tags, next, u);
        Success(TagOutcome(ExistingIds(tags, u) + Ids(created), created))
  }

  lemma {:induction false} ExistingIdsMembers(tags: seq<Tag>, u: seq<string>, id: Id)
    ensures id in ExistingIds(tags, u) <==> exists k | 0 <= k < |tags| :: tags[k].id == id && tags[k].name in u
    decreases |tags|
  {
    if tags != [] {
      var init := tags[..|tags| - 1];
      ExistingIdsMembers(init, u, id);
      assert forall k | 0 <= k < |init| :: init[k] == tags[k];
    }
  }

  /** The query finds exactly the tags whose stored name is asked for. */
  lemma ExistingIdsFor(tags: seq<Tag>, u: seq<string>, n: string)
    requires n in u && n in NamesOf(tags)
    ensures exists k | 0 <= k < |tags| :: tags[k].name == n && tags[k].id in ExistingIds(tags, u)
  {
    var t :| t in tags && t.name == n;
    var k :| 0 <= k < |tags| && tags[k] == t;
    ExistingIdsMembers(tags, u, t.id);
  }

  /** The created tags keep the stored tags valid, with the counter moved past them. */
  lemma CreatedTagsValid(tags: seq<Tag>, next: nat, u: seq<string>)
    requires TagsValid(tags, next) && Distinct(u) && forall i | 0 <= i < |u| :: IsTagName(u[i])
    ensures TagsValid(tags + CreatedTags(tags, next, u), next + |CreatedTags(tags, next, u)|)
  {
    var names := NewNames(u, NamesOf(tags));
    NewNamesDistinct(u, NamesOf(tags));
    var all := tags + CreatedTags(tags, next, u);
    forall i, j | 0 <= i < j < |all| ensures all[i].name != all[j].name {
      if j >= |tags| && i < |tags| {
        assert tags[i] in tags;
        assert names[j - |tags|] !in NamesOf(tags);
      }
    }
    forall i | |tags| <= i < |all| ensures IsTagName(all[i].name) {
      var n := names[i - |tags|];
      var m :| 0 <= m < |u| && u[m] == n;
    }
  }

  /** Every asked-for name is carried by a stored or created tag whose id is returned. */
  lemma NamesCovered(tags: seq<Tag>, next: nat, u: seq<string>, n: string)
    requires n in u
    ensures var created := CreatedTags(tags, next, u);
            var all := tags + created;
            exists k | 0 <= k < |all| :: all[k].name == n && all[k].id in ExistingIds(tags, u) + Ids(created)
  {
    var created := CreatedTags(tags, next, u);
    var all := tags + created;
    if n in NamesOf(tags) {
      ExistingIdsFor(tags, u, n);
      var k :| 0 <= k < |tags| && tags[k].name == n && tags[k].id in ExistingIds(tags, u);
      assert all[k] == tags[k];
    } else {
      var newNames := NewNames(u, NamesOf(tags));
      NewNamesMembers(u, NamesOf(tags), n);
      var j :| 0 <= j < |newNames| && newNames[j] == n;
      assert all[|tags| + j] == created[j];
      assert Ids(created)[j] == created[j].id;
    }
  }

  /** Every returned id is that of a stored or created tag carrying an asked-for name. */
  lemma IdsNamed(tags: seq<Tag>, next: nat, u: seq<string>, id: Id)
    requires id in ExistingIds(tags, u) + Ids(CreatedTags(tags, next, u))
    ensures var all := tags + CreatedTags(tags, next, u);
            exists k | 0 <= k < |all| :: all[k].id == id && all[k].name in u
  {
    var created := CreatedTags(tags, next, u);
    var all := tags + created;
    if id in ExistingIds(tags, u) {
      ExistingIdsMembers(tags, u, id);
      var k :| 0 <= k < |tags| && tags[k].id == id && tags[k].name in u;
      assert all[k] == tags[k];
    } else {
      var j :| 0 <= j < |Ids(created)| && Ids(created)[j] == id;
      assert all[|tags| + j] == created[j];
    }
  }

  /**
   * After find-or-create every asked-for name is carried by a stored tag
   * whose id is returned, and every returned id is that of a stored tag
   * carrying an asked-for name.
   */
  lemma FindOrCreateCovers(tags: seq<Tag>, next: nat, names: seq<string>)
    requires FindOrCreate(tags, next, names).Success?
    ensures var out := FindOrCreate(tags, next, names).value;
            var all := tags + out.created;
            (forall n | n in NormalizeTagNames(names) :: exists k | 0 <= k < |all| :: all[k].name == n && all[k].id in out.ids) &&
            (forall id | id in out.ids :: exists k | 0 <= k < |all| :: all[k].id == id && all[k].name in NormalizeTagNames(names))
  {
    if names != [] {
      var u := NormalizeTagNames(names);
      forall n | n in u {
        NamesCovered(tags, next, u, n);
      }
      forall id | id in ExistingIds(tags, u) + Ids(CreatedTags(tags, next, u)) {
        IdsNamed(tags, next, u, id);
      }
    }
  }

  /** Once find-or-create has run, running it again on the same names creates no tag. */
  lemma FindOrCreateAgain(tags: seq<Tag>, next: nat, names: seq<string>)
    requires FindOrCreate(tags, next, names).Success?
    ensures var out := FindOrCreate(tags, next, names).value;
            var again := FindOrCreate(tags + out.created, next + |out.created|, names);
            again.Success? && again.value.created == []
  {
    if names != [] {
      var u := NormalizeTagNames(names);
      var all := tags + CreatedTags(tags, next, u);
      var rest := NewNames(u, NamesOf(all));
      if rest != [] {
        NamesCovered(tags, next, u, rest[0]);
        var k :| 0 <= k < |all| && all[k].name == rest[0];
        assert all[k] in all;
      }
    }
  }

  /** The collections, and the counter standing in for generated document ids. */
  class Database {
    var tasks: seq<Task>
    var tags: seq<Tag>
    var nextId: nat

    ghost predicate Valid()
      reads this
    {
      TasksValid(tasks, nextId) && TagsValid(tags, nextId)
    }

    constructor ()
      ensures Valid() && tasks == [] && tags == []
    {
      tasks := [];
      tags := [];
      nextId := 0;
    }

    /**
     * `findOrCreateTags`: normalises the names, looks the stored ones up with
     * one `in` query, and writes one new tag per remaining name.
     */
    method FindOrCreateTags(tagNames: seq<string>) returns (r: Result<seq<Id>>)
      requires Valid()
      modifies this
      ensures Valid() && tasks == old(tasks)
      ensures var out := FindOrCreate(old(tags), old(nextId), tagNames);
              (out.Failure? ==> r == Failure(out.error) && tags == old(tags) && nextId == old(nextId)) &&
              (out.Success? ==> r == Success(out.value.ids) && tags == old(tags) + out.value.created &&
                                nextId == old(nextId) + |out.value.created|)
    {
      if tagNames == [] {
        return Success([]);
      }
      var unique := NormalizeTagNames(tagNames);
      if unique == [] {
        return Failure("Invalid Query. A non-empty array is required for 'in' filters.");
      }
      if |unique| > IN_QUERY_LIMIT {
        return Failure("Invalid Query. 'in' filters support a maximum of 30 elements in the value array.");
      }
      var existing, tagIds := ExistingTags(unique);
      var newTagNames := NewNames(unique, existing.Keys);
      NewNamesAgree(unique, existing.Keys, NamesOf(tags));
      ghost var tags0, next0 := tags, nextId;
      var created := CreateTags(newTagNames);
      CreatedTagsValid(tags0, next0, unique);
      return Success(tagIds + created);
    }

    /** The `in` query for stored tags named in `unique`, collected into a name-to-id map. */
    method ExistingTags(unique: seq<string>) returns (existing: map<string, Id>, tagIds: seq<Id>)
      requires Valid()
      ensures tagIds == ExistingIds(tags, unique)
      ensures forall n | n in unique :: n in existing <==> n in NamesOf(tags)
    {
      existing := map[];
      tagIds := [];
      for k := 0 to |tags|
        invariant tagIds == ExistingIds(tags[..k], unique)
        invariant forall n | n in unique :: n in existing <==> exists j | 0 <= j < k :: tags[j].name == n
      {
        assert tags[..k + 1][..k] == tags[..k];
        var tag := tags[k];
        if tag.name in unique {
          ToLowerOfLower(tag.name);
          existing := existing[ToLower(tag.name) := tag.id];
          tagIds := tagIds + [tag.id];
        }
      }
      assert tags[..|tags|] == tags;
      forall n | n in unique ensures n in existing <==> n in NamesOf(tags) {
        if n in NamesOf(tags) {
          var t :| t in tags && t.name == n;
          var j :| 0 <= j < |tags| && tags[j] == t;
        }
      }
    }

    /** The batch that writes one tag per name, ids taken from the counter. */
    method CreateTags(names: seq<string>) returns (ids: seq<Id>)
      modifies this
      ensures tasks == old(tasks)
      ensures tags == old(tags) + FreshTags(names, old(nextId))
      ensures nextId == old(nextId) + |names|
      ensures ids == Ids(FreshTags(names, old(nextId)))
    {
      var created;
      created, ids := BuildTagBatch(names, nextId);
      tags := tags + created;
      nextId := nextId + |names|;
    }

    /**
     * `addTask`: creates the tags, then writes one new task document whose
     * progress is `[]` iff it has a goal.
     */
    method AddTask(data: NewTask, now: Instant) returns (r: Result<Id>)
      requires Valid()
      modifies this
      ensures Valid()
      ensures var out := FindOrCreate(old(tags), old(nextId), data.tags);
              (out.Failure? ==> r == Failure(out.error) && tasks == old(tasks) && tags == old(tags) && nextId == old(nextId)) &&
              (out.Success? ==> r.Success? && tags == old(tags) + out.value.created &&
                                tasks == old(tasks) + [NewTaskDocument(data, r.value, out.value.ids, now)])
      ensures r.Success? ==> forall k | 0 <= k < |old(tasks)| :: old(tasks)[k].id != r.value
    {
      var tagResult := FindOrCreateTags(data.tags);
      if tagResult.Failure? {
        return Failure(tagResult.error);
      }
      var id := nextId;
      nextId := nextId + 1;
      tasks := tasks + [NewTaskDocument(data, id, tagResult.value, now)];
      return Success(id);
    }

    /** The position of the task document `taskId`, if it exists. */
    method FindTask(taskId: Id) returns (i: Option<nat>)
      ensures i.Some? <==> TaskIndex(tasks, taskId) < |tasks|
      ensures i.Some? ==> i.value == TaskIndex(tasks, taskId)
    {
      for k := 0 to |tasks|
        invariant TaskIndex(tasks, taskId) >= k
      {
        if tasks[k].id == taskId {
          return Some(k);
        }
      }
      return None;
    }

    /**
     * `updateTask`: tags are created first when supplied; the update fails
     * for a missing document, and otherwise writes the supplied fields.
     */
    method UpdateTask(taskId: Id, patch: TaskPatch, now: Instant) returns (r: Result<()>)
      requires Valid()
      modifies this
      ensures Valid()
      ensures patch.tags.None? ==> tags == old(tags) && nextId == old(nextId)
      ensures patch.tags.Some? && FindOrCreate(old(tags), old(nextId), patch.tags.value).Failure? ==>
                r == Failure(FindOrCreate(old(tags), old(nextId), patch.tags.value).error) &&
                tasks == old(tasks) && tags == old(tags)
      ensures patch.tags.Some? && FindOrCreate(old(tags), old(nextId), patch.tags.value).Success? ==>
                tags == old(tags) + FindOrCreate(old(tags), old(nextId), patch.tags.value).value.created
      ensures patch.tags.None? || FindOrCreate(old(tags), old(nextId), patch.tags.value).Success? ==>
                var i := TaskIndex(old(tasks), taskId);
                var ids := if patch.tags.Some? then Some(FindOrCreate(old(tags), old(nextId), patch.tags.value).value.ids) else None;
                (i == |old(tasks)| ==> r == Failure("No document to update") && tasks == old(tasks)) &&
                (i < |old(tasks)| ==> r == Success(()) && tasks == old(tasks)[i := ApplyPatch(old(tasks)[i], patch, ids, now)])
    {
      var tagIds: Option<seq<Id>> := None;
      if patch.tags.Some? {
        var created := FindOrCreateTags(patch.tags.value);
        if created.Failure? {
          return Failure(created.error);
        }
        tagIds := Some(created.value);
      }
      var i := FindTask(taskId);
      if i.None? {
        return Failure("No document to update");
      }
      tasks := tasks[i.value := ApplyPatch(tasks[i.value], patch, tagIds, now)];
      return Success(());
    }

    /**
     * `logProgress`: fails for a missing task; otherwise upserts the entry
     * for the log's date into the task's progress (a missing array counts as
     * empty).
     */
    method LogProgress(taskId: Id, log: ProgressLog, now: Instant) returns (r: Result<()>)
      requires Valid()
      modifies this
      ensures Valid() && tags == old(tags) && nextId == old(nextId)
      ensures var i := TaskIndex(old(tasks), taskId);
              (i == |old(tasks)| ==> r == Failure("Task not found!") && tasks == old(tasks)) &&
              (i < |old(tasks)| ==>
                 r == Success(()) &&
                 tasks == old(tasks)[i := old(tasks)[i].(progress := Some(Upsert(old(tasks)[i].progress.GetOr([]), log)),
                                                        updatedAt := now)])
    {
      var i := FindTask(taskId);
      if i.None? {
        return Failure("Task not found!");
      }
      var task := tasks[i.value];
      var progress := task.progress.GetOr([]);
      var existingLogIndex := FindLogIndex(progress, log.date);
      var newProgress;
      if existingLogIndex != -1 {
        newProgress := progress[existingLogIndex := log];
      } else {
        newProgress := progress + [log];
      }
      tasks := tasks[i.value := task.(progress := Some(newProgress), updatedAt := now)];
      return Success(());
    }

    /** `progress.findIndex(p => p.date === date)`. */
    static method FindLogIndex(progress: seq<ProgressLog>, date: Day) returns (index: int)
      ensures index == (if FindDate(progress, date) < |progress| then FindDate(progress, date) else -1)
    {
      for k := 0 to |progress|
        invariant FindDate(progress, date) >= k
      {
        if progress[k].date == date {
          return k;
        }
      }
      return -1;
    }

    /**
     * `fetchTasksWithTags`: every task with its tags resolved from its tag
     * ids, unknown ids dropped, newest first.
     */
    method FetchTasksWithTags() returns (r: seq<Task>)
      requires Valid()
      ensures tasks == [] ==> r == []
      ensures multiset(r) == multiset(AllWithTags(tasks, tags))
      ensures SortedBy(r, NewestFirst)
    {
      if tasks == [] {
        return [];
      }
      var stored := tasks;
      var shaped := seq(|stored|, i requires 0 <= i < |stored| => stored[i].(tags := []));
      var allTagIds := Dedupe(AllTagIds(stored));
      if |allTagIds| > 0 {
        var tagChunks := ChunkIds(allTagIds);
        var tagsMap := FetchTagChunks(tagChunks);
        for k := 0 to |shaped|
          invariant |shaped| == |stored|
          invariant forall j | 0 <= j < k :: shaped[j] == WithTags(stored[j], tags)
          invariant forall j | k <= j < |shaped| :: shaped[j] == stored[j].(tags := [])
        {
          var task := shaped[k];
          TagIdsCovered(stored, k, allTagIds, tagChunks);
          var resolved := ResolveFromMap(task.tagIds, tagsMap, tags);
          shaped := shaped[k := task.(tags := resolved)];
        }
      } else {
        forall j | 0 <= j < |stored| ensures shaped[j] == WithTags(stored[j], tags) {
          NoTagIds(stored, j);
        }
      }
      assert shaped == AllWithTags(stored, tags);
      return SortBy(shaped, NewestFirst);
    }

    /** One `in` query per chunk, every document found collected by id. */
    method FetchTagChunks(chunks: seq<seq<Id>>) returns (tagsMap: map<Id, Tag>)
      requires Valid()
      ensures forall id | id in tagsMap :: LookupTag(tags, id) == Some(tagsMap[id])
      ensures forall c, id | 0 <= c < |chunks| && id in chunks[c] :: LookupTag(tags, id).Some? ==> id in tagsMap
    {
      tagsMap := map[];
      for c := 0 to |chunks|
        invariant forall id | id in tagsMap :: LookupTag(tags, id) == Some(tagsMap[id])
        invariant forall d, id | 0 <= d < c && id in chunks[d] :: LookupTag(tags, id).Some? ==> id in tagsMap
      {
        for k := 0 to |tags|
          invariant forall id | id in tagsMap :: LookupTag(tags, id) == Some(tagsMap[id])
          invariant forall d, id | 0 <= d < c && id in chunks[d] :: LookupTag(tags, id).Some? ==> id in tagsMap
          invariant forall j | 0 <= j < k && tags[j].id in chunks[c] :: tags[j].id in tagsMap
        {
          if tags[k].id in chunks[c] {
            LookupUnique(tags, k);
            tagsMap := tagsMap[tags[k].id := tags[k]];
          }
        }
        forall id | id in chunks[c] && LookupTag(tags, id).Some? ensures id in tagsMap {
          var t := LookupTag(tags, id).value;
          var j :| 0 <= j < |tags| && tags[j] == t;
        }
      }
    }

    /** `tagIds.map(id => tagsMap.get(id)).filter(Boolean)`. */
    static method ResolveFromMap(ids: seq<Id>, tagsMap: map<Id, Tag>, ghost stored: seq<Tag>) returns (resolved: seq<Tag>)
      requires forall id | id in tagsMap :: LookupTag(stored, id) == Some(tagsMap[id])
      requires forall id | id in ids :: LookupTag(stored, id).Some? ==> id in tagsMap
      ensures resolved == ResolveTags(ids, stored)
    {
      resolved := [];
      for k := 0 to |ids|
        invariant resolved == ResolveTags(ids[..k], stored)
      {
        assert ids[..k + 1][..k] == ids[..k];
        if ids[k] in tagsMap {
          resolved := resolved + [tagsMap[ids[k]]];
        }
      }
      assert ids[..|ids|] == ids;
    }
  }

  /** The tag ids of each task occur among the de-duplicated, chunked ids. */
  lemma TagIdsCovered(tasks: seq<Task>, k: nat, all: seq<Id>, chunks: seq<seq<Id>>)
    requires k < |tasks| && all == Dedupe(AllTagIds(tasks)) && Flatten(chunks) == all
    ensures forall id | id in tasks[k].tagIds :: exists c | 0 <= c < |chunks| :: id in chunks[c]
  {
    forall id | id in tasks[k].tagIds ensures exists c | 0 <= c < |chunks| :: id in chunks[c] {
      AllTagIdsMembers(tasks, k, id);
      var m :| 0 <= m < |AllTagIds(tasks)| && AllTagIds(tasks)[m] == id;
      assert id in all;
      FlattenMembers(chunks, id);
    }
  }

  lemma {:induction false} AllTagIdsMembers(tasks: seq<Task>, k: nat, id: Id)
    requires k < |tasks| && id in tasks[k].tagIds
    ensures id in AllTagIds(tasks)
    decreases |tasks|
  {
    if k < |tasks| - 1 {
      AllTagIdsMembers(tasks[..|tasks| - 1], k, id);
    }
  }

  lemma NoTagIds(tasks: seq<Task>, j: nat)
    requires j < |tasks| && Dedupe(AllTagIds(tasks)) == []
    ensures tasks[j].tagIds == []
  {
    if tasks[j].tagIds != [] {
      AllTagIdsMembers(tasks, j, tasks[j].tagIds[0]);
    }
  }

  /** With unique ids, looking up a stored tag's id finds that tag. */
  lemma {:induction false} LookupUnique(tags: seq<Tag>, k: nat)
    requires k < |tags| && forall i, j | 0 <= i < j < |tags| :: tags[i].id != tags[j].id
    ensures LookupTag(tags, tags[k].id) == Some(tags[k])
    decreases |tags|
  {
    if k > 0 {
      LookupUnique(tags[1..], k - 1);
    }
  }
}
