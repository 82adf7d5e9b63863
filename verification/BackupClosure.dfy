/**
  The reference closure of compute rows in a backup (cmd/backup-tool/main.go, hydrateComputeClosure)
  and the order in which tasks are restored. The database is four finite tables by unique id.
 */
module BackupClosure {
  import opened Wrappers
  import opened Counting
  import opened Sorting

  datatype Task = Task(id: nat, parent: Option<nat>, stageOrder: int)

  datatype Item = Item(id: nat, taskId: nat, cacheId: Option<nat>)

  datatype CacheEntry = CacheEntry(id: nat, sourceItem: Option<nat>)

  datatype Dependency = Dependency(id: nat, taskId: nat, dependsOn: nat)

  datatype Tables = Tables(tasks: map<nat, Task>, items: map<nat, Item>, caches: map<nat, CacheEntry>, dependencies: map<nat, Dependency>)

  datatype ClosureError = TooDeep

  const MAX_PASSES: nat := 1000

  /** Every table is filed by its rows' ids. */
  ghost predicate Filed(t: Tables) {
    && (forall k :: k in t.tasks ==> t.tasks[k].id == k) && (forall k :: k in t.items ==> t.items[k].id == k)
    && (forall k :: k in t.caches ==> t.caches[k].id == k) && (forall k :: k in t.dependencies ==> t.dependencies[k].id == k)
  }

  ghost predicate Within<V>(a: map<nat, V>, b: map<nat, V>) {
    forall k :: k in a ==> k in b && a[k] == b[k]
  }

  /** The rows of one set of tables are rows of another. */
  ghost predicate Part(a: Tables, b: Tables) {
    Within(a.tasks, b.tasks) && Within(a.items, b.items) && Within(a.caches, b.caches) && Within(a.dependencies, b.dependencies)
  }

  function Size(t: Tables): nat {
    |t.tasks| + |t.items| + |t.caches| + |t.dependencies|
  }

  // ----- the ids that rows mention

  function Named(o: Option<nat>): set<nat> {
    if o.Some? then {o.value} else {}
  }

  ghost predicate MentionedByTask(tasks: map<nat, Task>, id: nat) {
    exists k :: k in tasks && (tasks[k].id == id || tasks[k].parent == Some(id))
  }

  ghost predicate MentionedByItem(items: map<nat, Item>, id: nat) {
    exists k :: k in items && items[k].taskId == id
  }

  ghost predicate MentionedByDependency(dependencies: map<nat, Dependency>, id: nat) {
    exists k :: k in dependencies && (dependencies[k].taskId == id || dependencies[k].dependsOn == id)
  }

  /** Task ids that some row names, present in the database or not. */
  ghost predicate TaskMentioned(t: Tables, id: nat) {
    MentionedByTask(t.tasks, id) || MentionedByItem(t.items, id) || MentionedByDependency(t.dependencies, id)
  }

  ghost predicate ItemMentioned(t: Tables, id: nat) {
    (exists k :: k in t.items && t.items[k].id == id) || (exists k :: k in t.caches && t.caches[k].sourceItem == Some(id))
  }

  ghost predicate CacheMentioned(t: Tables, id: nat) {
    (exists k :: k in t.caches && t.caches[k].id == id) || (exists k :: k in t.items && t.items[k].cacheId == Some(id))
  }

  /**
    Nothing in the database is still missing: the row of every mentioned id, the children, the items
    and the dependencies of every mentioned task.
   */
  ghost predicate ClosedIn(t: Tables, db: Tables) {
    && (forall k :: k in db.items && (ItemMentioned(t, k) || TaskMentioned(t, db.items[k].taskId)) ==> k in t.items)
    && (forall k :: k in db.tasks && (TaskMentioned(t, k) || (db.tasks[k].parent.Some? && TaskMentioned(t, db.tasks[k].parent.value))) ==> k in t.tasks)
    && (forall k :: k in db.dependencies && (TaskMentioned(t, db.dependencies[k].taskId) || TaskMentioned(t, db.dependencies[k].dependsOn)) ==> k in t.dependencies)
    && (forall k :: k in db.caches && CacheMentioned(t, k) ==> k in t.caches)
  }

  /** The least closed set of rows above a given one. */
  ghost predicate IsLeastClosure(start: Tables, t: Tables, db: Tables) {
    && Part(start, t) && Part(t, db) && ClosedIn(t, db)
    && forall c: Tables :: Part(start, c) && Part(c, db) && ClosedIn(c, db) ==> Part(t, c)
  }

  // ----- what closedness means

  /** No row of the database names a row that is missing there. */
  ghost predicate Intact(db: Tables) {
    && Filed(db)
    && (forall k :: k in db.tasks && db.tasks[k].parent.Some? ==> db.tasks[k].parent.value in db.tasks)
    && (forall k :: k in db.items ==> db.items[k].taskId in db.tasks && (db.items[k].cacheId.Some? ==> db.items[k].cacheId.value in db.caches))
    && (forall k :: k in db.caches && db.caches[k].sourceItem.Some? ==> db.caches[k].sourceItem.value in db.items)
    && (forall k :: k in db.dependencies ==> db.dependencies[k].taskId in db.tasks && db.dependencies[k].dependsOn in db.tasks)
  }

  /**
    The rows of a part follow every reference: with a task come its parent, its children, its items and its
    dependencies; with an item its task and its cache entry; with a cache entry its source item; with
    a dependency both its tasks.
   */
  ghost predicate FollowsReferences(t: Tables, db: Tables) {
    && (forall k :: k in t.tasks && t.tasks[k].parent.Some? ==> t.tasks[k].parent.value in t.tasks)
    && (forall k :: k in db.tasks && db.tasks[k].parent.Some? && db.tasks[k].parent.value in t.tasks ==> k in t.tasks)
    && (forall k :: k in db.items && db.items[k].taskId in t.tasks ==> k in t.items)
    && (forall k :: k in t.items ==> t.items[k].taskId in t.tasks && (t.items[k].cacheId.Some? ==> t.items[k].cacheId.value in t.caches))
    && (forall k :: k in t.caches && t.caches[k].sourceItem.Some? ==> t.caches[k].sourceItem.value in t.items)
    && (forall k :: k in db.dependencies && (db.dependencies[k].taskId in t.tasks || db.dependencies[k].dependsOn in t.tasks) ==> k in t.dependencies)
    && (forall k :: k in t.dependencies ==> t.dependencies[k].taskId in t.tasks && t.dependencies[k].dependsOn in t.tasks)
  }

  /** Where references are followed, every task, item and cache entry that is mentioned is there. */
  lemma MentionedIsThere(t: Tables, db: Tables)
    requires Intact(db) && Part(t, db) && FollowsReferences(t, db)
    ensures forall id :: TaskMentioned(t, id) ==> id in t.tasks
    ensures forall id :: ItemMentioned(t, id) ==> id in t.items
    ensures forall id :: CacheMentioned(t, id) ==> id in t.caches
  {
  }

  lemma ThereIsMentioned(t: Tables, db: Tables)
    requires Intact(db) && Part(t, db)
    ensures forall id :: id in t.tasks ==> TaskMentioned(t, id)
    ensures forall id :: id in t.items ==> ItemMentioned(t, id)
    ensures forall k :: k in t.tasks && t.tasks[k].parent.Some? ==> TaskMentioned(t, t.tasks[k].parent.value)
    ensures forall k :: k in t.items ==> TaskMentioned(t, t.items[k].taskId) && (t.items[k].cacheId.Some? ==> CacheMentioned(t, t.items[k].cacheId.value))
    ensures forall k :: k in t.caches && t.caches[k].sourceItem.Some? ==> ItemMentioned(t, t.caches[k].sourceItem.value)
    ensures forall k :: k in t.dependencies ==> TaskMentioned(t, t.dependencies[k].taskId) && TaskMentioned(t, t.dependencies[k].dependsOn)
  {
  }

  /** In an intact database a part is closed exactly when it follows every reference. */
  lemma ClosedMeans(t: Tables, db: Tables)
    requires Intact(db) && Part(t, db)
    ensures ClosedIn(t, db) <==> FollowsReferences(t, db)
  {
    if ClosedIn(t, db) { ClosedFollows(t, db); }
    if FollowsReferences(t, db) { FollowingCloses(t, db); }
  }

  lemma ClosedFollows(t: Tables, db: Tables)
    requires Intact(db) && Part(t, db) && ClosedIn(t, db)
    ensures FollowsReferences(t, db)
  {
    ThereIsMentioned(t, db);
    hide TaskMentioned, ItemMentioned, CacheMentioned;
  }

  lemma FollowingCloses(t: Tables, db: Tables)
    requires Intact(db) && Part(t, db) && FollowsReferences(t, db)
    ensures ClosedIn(t, db)
  {
    MentionedIsThere(t, db);
    hide TaskMentioned, ItemMentioned, CacheMentioned;
  }

  // ----- id sets, gathered row by row

  ghost predicate AllMentionedTasks(tasks: map<nat, Task>, before: set<nat>, after: set<nat>) {
    forall id :: id in after <==> id in before || MentionedByTask(tasks, id)
  }

  method AddTasks(tasks: map<nat, Task>, before: set<nat>) returns (ids: set<nat>)
    ensures AllMentionedTasks(tasks, before, ids)
  {
    ids := before;
    var rest := tasks.Keys;
    while rest != {}
      invariant rest <= tasks.Keys
      invariant forall id :: id in ids <==> id in before || exists k :: k in tasks && k !in rest && (tasks[k].id == id || tasks[k].parent == Some(id))
      decreases |rest|
    {
      var k :| k in rest;
      ids := ids + {tasks[k].id} + Named(tasks[k].parent);
      rest := rest - {k};
    }
  }

  method AddItemTasks(items: map<nat, Item>, before: set<nat>) returns (ids: set<nat>)
    ensures forall id :: id in ids <==> id in before || MentionedByItem(items, id)
  {
    ids := before;
    var rest := items.Keys;
    while rest != {}
      invariant rest <= items.Keys
      invariant forall id :: id in ids <==> id in before || exists k :: k in items && k !in rest && items[k].taskId == id
      decreases |rest|
    {
      var k :| k in rest;
      ids := ids + {items[k].taskId};
      rest := rest - {k};
    }
  }

  method AddItemCaches(items: map<nat, Item>, before: set<nat>) returns (ids: set<nat>)
    ensures forall id :: id in ids <==> id in before || exists k :: k in items && items[k].cacheId == Some(id)
  {
    ids := before;
    var rest := items.Keys;
    while rest != {}
      invariant rest <= items.Keys
      invariant forall id :: id in ids <==> id in before || exists k :: k in items && k !in rest && items[k].cacheId == Some(id)
      decreases |rest|
    {
      var k :| k in rest;
      ids := ids + Named(items[k].cacheId);
      rest := rest - {k};
    }
  }

  method AddDependencies(dependencies: map<nat, Dependency>, before: set<nat>) returns (ids: set<nat>)
    ensures forall id :: id in ids <==> id in before || MentionedByDependency(dependencies, id)
  {
    ids := before;
    var rest := dependencies.Keys;
    while rest != {}
      invariant rest <= dependencies.Keys
      invariant forall id :: id in ids <==> id in before || exists k :: k in dependencies && k !in rest && (dependencies[k].taskId == id || dependencies[k].dependsOn == id)
      decreases |rest|
    {
      var k :| k in rest;
      ids := ids + {dependencies[k].taskId, dependencies[k].dependsOn};
      rest := rest - {k};
    }
  }

  method AddCaches(caches: map<nat, CacheEntry>, before: set<nat>) returns (cacheIds: set<nat>, sources: set<nat>)
    ensures forall id :: id in cacheIds <==> exists k :: k in caches && caches[k].id == id
    ensures forall id :: id in sources <==> id in before || exists k :: k in caches && caches[k].sourceItem == Some(id)
  {
    cacheIds, sources := {}, before;
    var rest := caches.Keys;
    while rest != {}
      invariant rest <= caches.Keys
      invariant forall id :: id in cacheIds <==> exists k :: k in caches && k !in rest && caches[k].id == id
      invariant forall id :: id in sources <==> id in before || exists k :: k in caches && k !in rest && caches[k].sourceItem == Some(id)
      decreases |rest|
    {
      var k :| k in rest;
      cacheIds, sources := cacheIds + {caches[k].id}, sources + Named(caches[k].sourceItem);
      rest := rest - {k};
    }
  }

  // ----- the database queries

  function ItemsById(db: Tables, ids: set<nat>): map<nat, Item> {
    map k | k in db.items && k in ids :: db.items[k]
  }

  function ItemsOfTasks(db: Tables, ids: set<nat>): map<nat, Item> {
    map k | k in db.items && db.items[k].taskId in ids :: db.items[k]
  }

  function TasksOrChildren(db: Tables, ids: set<nat>): map<nat, Task> {
    map k | k in db.tasks && (k in ids || (db.tasks[k].parent.Some? && db.tasks[k].parent.value in ids)) :: db.tasks[k]
  }

  function DependenciesOfTasks(db: Tables, ids: set<nat>): map<nat, Dependency> {
    map k | k in db.dependencies && (db.dependencies[k].taskId in ids || db.dependencies[k].dependsOn in ids) :: db.dependencies[k]
  }

  function CachesById(db: Tables, ids: set<nat>): map<nat, CacheEntry> {
    map k | k in db.caches && k in ids :: db.caches[k]
  }

  // ----- one pass

  /** The ids that the rows at hand mention. */
  datatype Ids = Ids(tasks: set<nat>, items: set<nat>, caches: set<nat>)

  ghost predicate Mentioned(t: Tables, ids: Ids) {
    && (forall id :: id in ids.tasks ==> TaskMentioned(t, id))
    && (forall id :: id in ids.items ==> ItemMentioned(t, id))
    && (forall id :: id in ids.caches ==> CacheMentioned(t, id))
  }

  ghost predicate Gathered(t: Tables, ids: Ids) {
    && Mentioned(t, ids)
    && (forall id :: TaskMentioned(t, id) ==> id in ids.tasks)
    && (forall id :: ItemMentioned(t, id) ==> id in ids.items)
    && (forall id :: CacheMentioned(t, id) ==> id in ids.caches)
  }

  /** The rows one pass fetches, with the ids each query was made with. */
  datatype Fetched = Fetched(items: map<nat, Item>, tasks: map<nat, Task>, dependencies: map<nat, Dependency>, taskItems: map<nat, Item>,
                             caches: map<nat, CacheEntry>)

  ghost predicate FetchedBy(db: Tables, ids: Ids, f: Fetched, firstTasks: set<nat>, moreTasks: set<nat>, moreCaches: set<nat>) {
    && f.items == ItemsById(db, ids.items)
    && (forall id :: id in firstTasks <==> id in ids.tasks || MentionedByItem(f.items, id))
    && f.tasks == TasksOrChildren(db, firstTasks)
    && (forall id :: id in moreTasks <==> id in firstTasks || MentionedByTask(f.tasks, id))
    && f.dependencies == DependenciesOfTasks(db, moreTasks) && f.taskItems == ItemsOfTasks(db, moreTasks)
    && (forall id :: id in moreCaches <==> id in ids.caches || NamedCache(f.items, id) || NamedCache(f.taskItems, id))
    && f.caches == CachesById(db, moreCaches)
  }

  ghost predicate NamedCache(items: map<nat, Item>, id: nat) {
    exists k :: k in items && items[k].cacheId == Some(id)
  }

  function Enlarged(t: Tables, f: Fetched): Tables {
    Tables(t.tasks + f.tasks, t.items + f.items + f.taskItems, t.caches + f.caches, t.dependencies + f.dependencies)
  }

  /** A closed set of rows that holds those at hand. */
  ghost predicate Above(t: Tables, c: Tables, db: Tables) {
    Part(t, c) && Part(c, db) && ClosedIn(c, db)
  }

  lemma MentionsGrow(t: Tables, c: Tables, ids: Ids)
    requires Part(t, c) && Mentioned(t, ids)
    ensures Mentioned(c, ids)
  {
  }

  lemma MentionedItemsInside(c: Tables, db: Tables, ids: Ids)
    requires Part(c, db) && ClosedIn(c, db) && Mentioned(c, ids)
    ensures Within(ItemsById(db, ids.items), c.items)
  {
    hide TaskMentioned, ItemMentioned, CacheMentioned;
  }

  lemma ItemsMention(c: Tables, items: map<nat, Item>, id: nat)
    requires Within(items, c.items)
    ensures MentionedByItem(items, id) ==> TaskMentioned(c, id)
    ensures NamedCache(items, id) ==> CacheMentioned(c, id)
  {
  }

  lemma TasksMention(c: Tables, tasks: map<nat, Task>, id: nat)
    requires Within(tasks, c.tasks)
    ensures MentionedByTask(tasks, id) ==> TaskMentioned(c, id)
  {
  }

  lemma MentionedTasksInside(c: Tables, db: Tables, ids: set<nat>)
    requires Part(c, db) && ClosedIn(c, db) && forall id :: id in ids ==> TaskMentioned(c, id)
    ensures Within(TasksOrChildren(db, ids), c.tasks)
    ensures Within(DependenciesOfTasks(db, ids), c.dependencies)
    ensures Within(ItemsOfTasks(db, ids), c.items)
  {
    hide TaskMentioned, ItemMentioned, CacheMentioned;
  }

  lemma MentionedCachesInside(c: Tables, db: Tables, ids: set<nat>)
    requires Part(c, db) && ClosedIn(c, db) && forall id :: id in ids ==> CacheMentioned(c, id)
    ensures Within(CachesById(db, ids), c.caches)
  {
    hide TaskMentioned, ItemMentioned, CacheMentioned;
  }

  /** Whatever a pass fetches lies in every closed set above the rows at hand. */
  lemma FetchStaysInside(t: Tables, db: Tables, ids: Ids, f: Fetched, firstTasks: set<nat>, moreTasks: set<nat>, moreCaches: set<nat>, c: Tables)
    requires Above(t, c, db) && Mentioned(t, ids) && FetchedBy(db, ids, f, firstTasks, moreTasks, moreCaches)
    ensures Part(Enlarged(t, f), c)
  {
    hide ClosedIn, TaskMentioned, ItemMentioned, CacheMentioned, MentionedByItem, MentionedByTask, NamedCache,
      ItemsById, ItemsOfTasks, TasksOrChildren, DependenciesOfTasks, CachesById;
    hide Part, Within;
    AboveIs(t, c, db);
    MentionsGrow(t, c, ids);
    MentionedItemsInside(c, db, ids);
    hide Mentioned;
    forall id | id in firstTasks ensures TaskMentioned(c, id) { ItemsMention(c, f.items, id); }
    MentionedTasksInside(c, db, firstTasks);
    forall id | id in moreTasks ensures TaskMentioned(c, id) { TasksMention(c, f.tasks, id); }
    MentionedTasksInside(c, db, moreTasks);
    forall id | id in moreCaches ensures CacheMentioned(c, id) {
      ItemsMention(c, f.items, id);
      ItemsMention(c, f.taskItems, id);
    }
    MentionedCachesInside(c, db, moreCaches);
    EnlargedInside(t, f, c);
  }

  lemma EnlargedInside(t: Tables, f: Fetched, c: Tables)
    requires Part(t, c) && Within(f.items, c.items) && Within(f.taskItems, c.items) && Within(f.tasks, c.tasks)
    requires Within(f.dependencies, c.dependencies) && Within(f.caches, c.caches)
    ensures Part(Enlarged(t, f), c)
  {
  }

  /** A pass that adds nothing was made on a closed set. */
  lemma NothingFetchedIsClosed(t: Tables, db: Tables, ids: Ids, f: Fetched, firstTasks: set<nat>, moreTasks: set<nat>, moreCaches: set<nat>)
    requires Gathered(t, ids) && FetchedBy(db, ids, f, firstTasks, moreTasks, moreCaches)
    requires Enlarged(t, f) == t
    ensures ClosedIn(t, db)
  {
    hide TaskMentioned, ItemMentioned, CacheMentioned, MentionedByItem, MentionedByTask, NamedCache;
    assert f.tasks.Keys <= t.tasks.Keys && f.items.Keys <= t.items.Keys && f.taskItems.Keys <= t.items.Keys by { KeysKept(t, f); }
    assert f.caches.Keys <= t.caches.Keys && f.dependencies.Keys <= t.dependencies.Keys by { KeysKept(t, f); }
  }

  lemma KeysKept(t: Tables, f: Fetched)
    requires Enlarged(t, f) == t
    ensures f.tasks.Keys <= t.tasks.Keys && f.items.Keys <= t.items.Keys && f.taskItems.Keys <= t.items.Keys
    ensures f.caches.Keys <= t.caches.Keys && f.dependencies.Keys <= t.dependencies.Keys
  {
    assert (t.tasks + f.tasks).Keys == t.tasks.Keys + f.tasks.Keys;
    assert (t.items + f.items + f.taskItems).Keys == t.items.Keys + f.items.Keys + f.taskItems.Keys;
    assert (t.caches + f.caches).Keys == t.caches.Keys + f.caches.Keys;
    assert (t.dependencies + f.dependencies).Keys == t.dependencies.Keys + f.dependencies.Keys;
  }

  /** A pass as a whole: it only adds rows that closure demands, and on a set that is not closed it adds some. */
  ghost predicate Passes(was: Tables, now: Tables, db: Tables) {
    && Part(was, now) && Part(now, db)
    && (now == was ==> ClosedIn(was, db))
    && forall c: Tables :: Above(was, c, db) ==> Part(now, c)
  }

  lemma FetchPasses(t: Tables, db: Tables, ids: Ids, f: Fetched, firstTasks: set<nat>, moreTasks: set<nat>, moreCaches: set<nat>)
    requires Part(t, db) && Gathered(t, ids) && FetchedBy(db, ids, f, firstTasks, moreTasks, moreCaches)
    ensures Passes(t, Enlarged(t, f), db)
  {
    EnlargedIsPart(t, db, ids, f, firstTasks, moreTasks, moreCaches);
    hide ClosedIn, Above, Part, TaskMentioned, ItemMentioned, CacheMentioned, FetchedBy, Enlarged;
    forall c: Tables | Above(t, c, db) ensures Part(Enlarged(t, f), c) {
      FetchStaysInside(t, db, ids, f, firstTasks, moreTasks, moreCaches, c);
    }
    if Enlarged(t, f) == t {
      NothingFetchedIsClosed(t, db, ids, f, firstTasks, moreTasks, moreCaches);
    }
  }

  lemma EnlargedIsPart(t: Tables, db: Tables, ids: Ids, f: Fetched, firstTasks: set<nat>, moreTasks: set<nat>, moreCaches: set<nat>)
    requires Part(t, db) && FetchedBy(db, ids, f, firstTasks, moreTasks, moreCaches)
    ensures Part(t, Enlarged(t, f)) && Part(Enlarged(t, f), db)
  {
    hide MentionedByItem, MentionedByTask, NamedCache, Within;
    FetchedWithin(db, ids, f, firstTasks, moreTasks, moreCaches);
    UnionWithin(t.tasks, f.tasks, db.tasks);
    UnionWithin(t.items, f.items, db.items);
    UnionWithin(t.items + f.items, f.taskItems, db.items);
    WithinTransitive(t.items, t.items + f.items, t.items + f.items + f.taskItems);
    UnionWithin(t.caches, f.caches, db.caches);
    UnionWithin(t.dependencies, f.dependencies, db.dependencies);
  }

  lemma FetchedWithin(db: Tables, ids: Ids, f: Fetched, firstTasks: set<nat>, moreTasks: set<nat>, moreCaches: set<nat>)
    requires FetchedBy(db, ids, f, firstTasks, moreTasks, moreCaches)
    ensures Within(f.tasks, db.tasks) && Within(f.items, db.items) && Within(f.taskItems, db.items)
    ensures Within(f.caches, db.caches) && Within(f.dependencies, db.dependencies)
  {
    hide MentionedByItem, MentionedByTask, NamedCache;
  }

  lemma UnionWithin<V>(a: map<nat, V>, b: map<nat, V>, c: map<nat, V>)
    requires Within(a, c) && Within(b, c)
    ensures Within(a, a + b) && Within(a + b, c)
  {
  }

  lemma WithinTransitive<V>(a: map<nat, V>, b: map<nat, V>, c: map<nat, V>)
    requires Within(a, b) && Within(b, c)
    ensures Within(a, c)
  {
  }

  class IncrementalBackup {
    var tables: Tables

    constructor (tables: Tables)
      ensures this.tables == tables
    {
      this.tables := tables;
    }

    /** The ids that the rows at hand mention, table by table. */
    method Gather() returns (ids: Ids)
      requires Filed(tables)
      ensures Gathered(tables, ids)
    {
      var taskIds := AddTasks(tables.tasks, {});
      taskIds := AddItemTasks(tables.items, taskIds);
      var itemCaches := AddItemCaches(tables.items, {});
      var cacheIds, itemIds := AddCaches(tables.caches, tables.items.Keys);
      taskIds := AddDependencies(tables.dependencies, taskIds);
      ids := Ids(taskIds, itemIds, cacheIds + itemCaches);
    }

    method Pass(db: Tables)
      requires Filed(db) && Part(tables, db)
      modifies this
      ensures Passes(old(tables), tables, db)
    {
      hide Passes, Gathered;
      PartIsFiled(tables, db);
      var ids := Gather();
      var items := ItemsById(db, ids.items);
      var firstTasks := AddItemTasks(items, ids.tasks);
      var cacheIds := AddItemCaches(items, ids.caches);
      var tasks := TasksOrChildren(db, firstTasks);
      var moreTasks := AddTasks(tasks, firstTasks);
      var dependencies := DependenciesOfTasks(db, moreTasks);
      var taskItems := ItemsOfTasks(db, moreTasks);
      cacheIds := AddItemCaches(taskItems, cacheIds);
      var fetched := Fetched(items, tasks, dependencies, taskItems, CachesById(db, cacheIds));
      FetchPasses(tables, db, ids, fetched, firstTasks, moreTasks, cacheIds);
      tables := Enlarged(tables, fetched);
    }

    /**
      Passes until one adds nothing. On success the rows are the least closed set above the first
      ones, and the tasks come back in restore order; the error means a thousand passes each added rows.
     */
    method HydrateComputeClosure(db: Tables) returns (r: Result<seq<Task>, ClosureError>)
      requires Filed(db) && Part(tables, db)
      modifies this
      ensures Part(old(tables), tables) && Part(tables, db)
      ensures r.Ok? ==> IsLeastClosure(old(tables), tables, db) && InRestoreOrder(tables.tasks, r.value)
      ensures r.Err? ==> Size(tables) >= Size(old(tables)) + MAX_PASSES
    {
      hide Filed, Part, Passes, ClosedIn, Above, InRestoreOrder, Size;
      ghost var start := tables;
      PartOfItself(start, db);
      for pass := 0 to MAX_PASSES
        invariant Part(start, tables) && Part(tables, db)
        invariant forall c: Tables :: Above(start, c, db) ==> Part(tables, c)
        invariant Size(tables) >= Size(start) + pass
      {
        ghost var was := tables;
        var before := Size(tables);
        Pass(db);
        PassGrows(start, was, tables, db);
        if Size(tables) == before {
          Closure(start, was, tables, db);
          PartIsFiled(tables, db);
          FiledTasks(tables);
          var sorted := SortForRestore(tables.tasks);
          return Ok(sorted);
        }
      }
      r := Err(TooDeep);
    }
  }

  lemma FiledTasks(t: Tables)
    requires Filed(t)
    ensures forall k :: k in t.tasks ==> t.tasks[k].id == k
  {
  }

  lemma WithinSize<V>(a: map<nat, V>, b: map<nat, V>)
    requires Within(a, b)
    ensures |a| <= |b|
    ensures |a| == |b| ==> a == b
  {
    SubsetCount(a.Keys, b.Keys);
  }

  /** More rows never make the tables smaller, and the same number of rows means the same rows. */
  lemma PartSize(a: Tables, b: Tables)
    requires Part(a, b)
    ensures Size(a) <= Size(b)
    ensures Size(a) == Size(b) ==> a == b
  {
    hide Within;
    WithinSize(a.tasks, b.tasks);
    WithinSize(a.items, b.items);
    WithinSize(a.caches, b.caches);
    WithinSize(a.dependencies, b.dependencies);
  }

  lemma PartOfItself(t: Tables, db: Tables)
    ensures Part(t, t)
    ensures forall c: Tables :: Above(t, c, db) ==> Part(t, c)
  {
  }

  lemma PartTransitive(a: Tables, b: Tables, c: Tables)
    requires Part(a, b) && Part(b, c)
    ensures Part(a, c)
  {
  }

  lemma AboveIs(t: Tables, c: Tables, db: Tables)
    ensures Above(t, c, db) <==> Part(t, c) && Part(c, db) && ClosedIn(c, db)
  {
  }

  lemma PassGrows(start: Tables, was: Tables, now: Tables, db: Tables)
    requires Part(start, was) && Passes(was, now, db)
    requires forall c: Tables :: Above(start, c, db) ==> Part(was, c)
    ensures Part(start, now) && Part(now, db) && Size(was) <= Size(now)
    ensures Size(was) == Size(now) ==> was == now && ClosedIn(now, db)
    ensures forall c: Tables :: Above(start, c, db) ==> Part(now, c)
  {
    hide Part, ClosedIn, Above, Size;
    PartTransitive(start, was, now);
    PartSize(was, now);
    forall c: Tables | Above(start, c, db) ensures Part(now, c) {
      AboveIs(start, c, db);
      AboveIs(was, c, db);
    }
  }

  lemma Closure(start: Tables, was: Tables, t: Tables, db: Tables)
    requires Part(start, t) && Part(t, db) && ClosedIn(t, db)
    requires forall c: Tables :: Above(start, c, db) ==> Part(t, c)
    ensures IsLeastClosure(start, t, db)
  {
    hide Part, ClosedIn;
  }

  /** Fewer than a thousand rows outside the first ones cannot exhaust the passes. */
  lemma SmallDatabaseIsHydrated(start: Tables, t: Tables, db: Tables)
    requires Part(t, db) && Size(t) >= Size(start) + MAX_PASSES
    ensures Size(db) >= Size(start) + MAX_PASSES
  {
    PartSize(t, db);
  }

  // ----- restore order

  /** Tasks without a parent first, then by stage order, then by id. */
  function RestoreKey(t: Task): seq<int> {
    [if t.parent.Some? then 1 else 0, t.stageOrder, t.id]
  }

  /** All rows of a table, each once, in restore order. */
  ghost predicate InRestoreOrder(tasks: map<nat, Task>, rows: seq<Task>) {
    && AllDistinct(rows) && OrderedBy(rows, RestoreKey)
    && forall t: Task :: t in rows <==> t.id in tasks && tasks[t.id] == t
  }

  method SortForRestore(tasks: map<nat, Task>) returns (rows: seq<Task>)
    requires forall k :: k in tasks ==> tasks[k].id == k
    ensures InRestoreOrder(tasks, rows)
  {
    var list: seq<Task>, rest := [], tasks.Keys;
    while rest != {}
      invariant rest <= tasks.Keys && AllDistinct(list)
      invariant forall t: Task :: t in list <==> t.id in tasks && t.id !in rest && tasks[t.id] == t
      decreases |rest|
    {
      var k :| k in rest;
      list, rest := list + [tasks[k]], rest - {k};
    }
    rows := SortedBy(list, RestoreKey);
    SortedIsOrdered(list, RestoreKey);
    RearrangedDistinct(list, rows);
    forall t: Task ensures t in rows <==> t in list { SameMembers(list, rows, t); }
  }

  /** A parent that is itself a child, and comes no earlier than its child by stage and id. */
  ghost predicate LateParent(child: Task, parent: Task) {
    child.parent == Some(parent.id) && parent.parent.Some?
    && (parent.stageOrder > child.stageOrder || (parent.stageOrder == child.stageOrder && parent.id >= child.id))
  }

  ghost predicate NoLateParent(rows: seq<Task>) {
    forall i, j :: 0 <= i < |rows| && 0 <= j < |rows| ==> !LateParent(rows[i], rows[j])
  }

  ghost predicate ParentsFirst(rows: seq<Task>) {
    forall i, j :: 0 <= i < |rows| && 0 <= j < |rows| && rows[i].parent == Some(rows[j].id) ==> j < i
  }

  lemma KeyOrder(a: Task, b: Task)
    ensures Leq(RestoreKey(a), RestoreKey(b))
       <==> (a.parent.None? && b.parent.Some?)
            || (a.parent.Some? == b.parent.Some? && (a.stageOrder < b.stageOrder || (a.stageOrder == b.stageOrder && a.id <= b.id)))
  {
    var x, y := RestoreKey(a), RestoreKey(b);
    hide Leq;
    LeqOfThree(x, y);
  }

  lemma LeqOfThree(x: seq<int>, y: seq<int>)
    requires |x| == |y| == 3
    ensures Leq(x, y) <==> x[0] < y[0] || (x[0] == y[0] && (x[1] < y[1] || (x[1] == y[1] && x[2] <= y[2])))
  {
    assert Leq(x, y) <==> x[0] < y[0] || (x[0] == y[0] && Leq(x[1..], y[1..]));
    var a, b := x[1..], y[1..];
    assert Leq(a, b) <==> a[0] < b[0] || (a[0] == b[0] && Leq(a[1..], b[1..]));
    var c, d := a[1..], b[1..];
    assert Leq(c, d) <==> c[0] < d[0] || (c[0] == d[0] && Leq(c[1..], d[1..]));
  }

  /**
    Restoring in this order puts every parent before its children exactly when no parent that is
    itself a child comes after its child by stage and id; parents without parents always do.
   */
  lemma ParentsPrecedeChildren(tasks: map<nat, Task>, rows: seq<Task>)
    requires InRestoreOrder(tasks, rows)
    ensures ParentsFirst(rows) <==> NoLateParent(rows)
  {
    if ParentsFirst(rows) { NoneLate(tasks, rows); }
    if NoLateParent(rows) { AllFirst(rows); }
  }

  /** Task 2 is a child of task 3, itself a child of task 1: at equal stages 2 is restored before its parent. */
  lemma LateParentExists()
    ensures var one, two, three := Task(1, None, 0), Task(2, Some(3), 0), Task(3, Some(1), 0);
            InRestoreOrder(map[1 := one, 2 := two, 3 := three], [one, two, three])
            && LateParent(two, three) && !ParentsFirst([one, two, three])
  {
    hide Leq;
    var one, two, three := Task(1, None, 0), Task(2, Some(3), 0), Task(3, Some(1), 0);
    KeyOrder(one, two);
    KeyOrder(one, three);
    KeyOrder(two, three);
    var rows := [one, two, three];
    assert rows[1] == two && rows[2] == three;
    assert rows[1].parent == Some(rows[2].id);
  }

  lemma NoneLate(tasks: map<nat, Task>, rows: seq<Task>)
    requires InRestoreOrder(tasks, rows) && ParentsFirst(rows)
    ensures NoLateParent(rows)
  {
    forall i, j | 0 <= i < |rows| && 0 <= j < |rows| ensures !LateParent(rows[i], rows[j]) {
      if rows[i].parent == Some(rows[j].id) { EarlierIsNotLate(tasks, rows, j, i); }
    }
  }

  lemma AllFirst(rows: seq<Task>)
    requires OrderedBy(rows, RestoreKey) && NoLateParent(rows)
    ensures ParentsFirst(rows)
  {
    forall i, j | 0 <= i < |rows| && 0 <= j < |rows| && rows[i].parent == Some(rows[j].id) ensures j < i {
      assert !LateParent(rows[i], rows[j]);
      if i < j { EarlierKey(rows, i, j); }
    }
  }

  lemma EarlierKey(rows: seq<Task>, i: int, j: int)
    requires OrderedBy(rows, RestoreKey) && 0 <= i < j < |rows|
    ensures (rows[i].parent.None? && rows[j].parent.Some?)
            || (rows[i].parent.Some? == rows[j].parent.Some?
                && (rows[i].stageOrder < rows[j].stageOrder || (rows[i].stageOrder == rows[j].stageOrder && rows[i].id <= rows[j].id)))
  {
    KeyOrder(rows[i], rows[j]);
    hide Leq;
    assert Leq(RestoreKey(rows[i]), RestoreKey(rows[j]));
  }

  lemma EarlierIsNotLate(tasks: map<nat, Task>, rows: seq<Task>, parent: int, child: int)
    requires InRestoreOrder(tasks, rows) && 0 <= parent < child < |rows| && rows[child].parent == Some(rows[parent].id)
    ensures !LateParent(rows[child], rows[parent])
  {
    EarlierKey(rows, parent, child);
    if rows[parent].id == rows[child].id { SameRow(tasks, rows, parent, child); }
  }

  lemma SameRow(tasks: map<nat, Task>, rows: seq<Task>, i: int, j: int)
    requires InRestoreOrder(tasks, rows) && 0 <= i < |rows| && 0 <= j < |rows| && rows[i].id == rows[j].id
    ensures i == j
  {
    assert rows[i] in rows && rows[j] in rows;
  }

  lemma PartIsFiled(t: Tables, db: Tables)
    requires Filed(db) && Part(t, db)
    ensures Filed(t)
  {
  }
}
