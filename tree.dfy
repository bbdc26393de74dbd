/** The Gradle tasks tree of
    extension/src/views/gradleTasks/GradleTasksTreeDataProvider.ts: tasks are
    grouped into root project (one per project folder), project (one per
    build file), task group (when the view is not collapsed) and task. The
    module-level maps the source keeps are fields of the provider here, and
    a tree item is referred to by the key of its map entry. */
module TasksTree {
  import opened Results
  import opened Strings

  /** The fields of extension/src/tasks/GradleTaskDefinition.ts the tree reads. */
  datatype TaskDefinition = TaskDefinition(
    id: string,
    script: string,
    description: Option<string>,
    group: string,
    project: string,
    buildFile: Option<string>,
    projectFolder: string,
    args: string,
    javaDebug: Option<bool>)

  /** A task handed to the tree: its definition, whether its scope is a
      workspace folder, and whether `isGradleTask` holds for it. */
  datatype TaskEntry = TaskEntry(definition: TaskDefinition, scopeIsWorkspaceFolder: bool, isGradleTask: bool)

  /** The key of a task-group item: the group within the project of one build file. */
  datatype GroupKey = GroupKey(group: string, buildFile: string)

  /** Where a task item hangs: directly under a project, or under a group. */
  datatype Parent = ProjectParent(buildFile: string) | GroupParent(key: GroupKey)

  datatype RootProjectItem = RootProjectItem(text: string, projectFolder: string, projects: seq<string>)

  datatype ProjectItem = ProjectItem(
    text: string, rootFolder: string, buildFile: string, groups: seq<GroupKey>, tasks: seq<TaskItem>)

  datatype GroupItem = GroupItem(text: string, buildFile: string, tasks: seq<TaskItem>)

  /** A task item. The java-debug configuration is identified by the
      workspace folder it is read from. */
  datatype TaskItem = TaskItem(
    parent: Parent, definition: TaskDefinition, text: string, description: string, javaDebug: string)

  /** A tree element, as `getChildren` and `getParent` receive and return it. */
  datatype Element =
    | RootElement(projectFolder: string)
    | ProjectElement(buildFile: string)
    | GroupElement(key: GroupKey)
    | TaskElement(item: TaskItem)
    | NoTasksElement

  const BuildFileMissing := "Unexpected: definition.buildFile not defined"

  predicate NoDups<T(==)>(s: seq<T>) {
    forall i, j :: 0 <= i < j < |s| ==> s[i] != s[j]
  }

  /** Only tasks scoped to a workspace folder that are Gradle tasks go into the tree. */
  predicate Eligible(e: TaskEntry) {
    e.scopeIsWorkspaceFolder && e.isGradleTask
  }

  /** `!definition.buildFile` is false. */
  predicate HasBuildFile(d: TaskDefinition) {
    d.buildFile.Some? && d.buildFile.value != ""
  }

  /** Whether a task gets past the workspace-folder lookup: its project
      folder already has a java-debug entry in `debug`, or it lies in a
      workspace folder. */
  predicate Reaches(e: TaskEntry, debug: map<string, string>, workspaceFolderOf: string -> Option<string>) {
    Eligible(e) && (e.definition.projectFolder in debug || workspaceFolderOf(e.definition.projectFolder).Some?)
  }

  /** A task's label: what follows the last ':' of its script. */
  function TaskLabel(script: string): (r: string)
    ensures ':' !in r
  {
    AfterLast(script, ':')
  }

  /** The label of a task path is its last segment, and a script without ':'
      is its own label. */
  lemma TaskLabelOfPath(prefix: string, name: string)
    requires ':' !in name
    ensures TaskLabel(prefix + [':'] + name) == name
    ensures TaskLabel(name) == name
  {
    var s := prefix + [':'] + name;
    assert s[|s| - |name|..] == name;
    assert s[|s| - |name| - 1] == ':';
    AfterLastUnique(s, ':', name);
    AfterLastUnique(name, ':', name);
  }

  /** `definition.description || taskName`. */
  function TaskDescription(d: TaskDefinition): string {
    if d.description.Some? && d.description.value != "" then d.description.value else TaskLabel(d.script)
  }

  /** The group key as the source writes it: `definition.group + definition.project`. */
  function AsWrittenGroupId(d: TaskDefinition): string {
    d.group + d.project
  }

  /** Two subprojects with the same name (`:a:core` and `:b:core`) have two
      build files, hence two project items, but one group id, so the group
      item made for the first project also receives the second project's
      tasks. A group and project name that concatenate alike collide too. */
  lemma AsWrittenGroupIdCollides()
    ensures var a := TaskDefinition("a", "a:core:build", None, "build", "core", Some("/w/a/core/build.gradle"), "/w", "", None);
            var b := TaskDefinition("b", "b:core:build", None, "build", "core", Some("/w/b/core/build.gradle"), "/w", "", None);
            && a.buildFile != b.buildFile
            && AsWrittenGroupId(a) == AsWrittenGroupId(b)
            && GroupKeyOf(a) != GroupKeyOf(b)
    ensures var a := TaskDefinition("a", "x:y", None, "ab", "c", Some("/w/c/build.gradle"), "/w", "", None);
            var b := TaskDefinition("b", "x:y", None, "a", "bc", Some("/w/bc/build.gradle"), "/w", "", None);
            && AsWrittenGroupId(a) == AsWrittenGroupId(b)
            && a.group != b.group
            && GroupKeyOf(a) != GroupKeyOf(b)
  {
    assert "build" + "core" == "buildcore";
    assert "ab" + "c" == "a" + "bc";
  }

  /** A group item as the source keys it, by `group + project`: its label,
      the build file of the project item it was made under, and the ids of
      the tasks added to it. */
  datatype AsWrittenGroup = AsWrittenGroup(text: string, buildFile: string, tasks: seq<string>)

  /** The project and group maps when the view is not collapsed, with group
      items keyed as the source keys them: the group ids each project item
      lists, by build file, and the group items, by id. */
  datatype AsWrittenTree = AsWrittenTree(projectGroups: map<string, seq<string>>, groups: map<string, AsWrittenGroup>)

  /** Placing a task as written: its project item, the group item under the
      id `group + project` (made under this project only when the id is new)
      and the task added to that group item. The task hangs under the group
      item of whichever project first used its id. */
  function AsWrittenPlace(t: AsWrittenTree, d: TaskDefinition): (r: AsWrittenTree)
    requires HasBuildFile(d)
    ensures AsWrittenGroupId(d) in r.groups && d.buildFile.value in r.projectGroups
    ensures d.id in r.groups[AsWrittenGroupId(d)].tasks
    ensures r.groups[AsWrittenGroupId(d)].buildFile ==
              if AsWrittenGroupId(d) in t.groups then t.groups[AsWrittenGroupId(d)].buildFile else d.buildFile.value
    ensures AsWrittenGroupId(d) in t.groups && d.buildFile.value in t.projectGroups ==>
              r.projectGroups == t.projectGroups
  {
    var b := d.buildFile.value;
    var id := AsWrittenGroupId(d);
    var t1 := if b in t.projectGroups then t else t.(projectGroups := t.projectGroups[b := []]);
    var t2 := if id in t1.groups then t1
              else t1.(groups := t1.groups[id := AsWrittenGroup(d.group, b, [])],
                       projectGroups := t1.projectGroups[b := t1.projectGroups[b] + [id]]);
    t2.(groups := t2.groups[id := t2.groups[id].(tasks := t2.groups[id].tasks + [d.id])])
  }

  /** As written, the `build` task of `:b:core` hangs under the `build`
      group item made under `:a:core`'s project item, and `:b:core`'s
      project item lists no group; with the corrected key it hangs under a
      group of its own project. */
  lemma AsWrittenMisplaces()
    ensures var a := TaskDefinition("a", "a:core:build", None, "build", "core", Some("/w/a/core/build.gradle"), "/w", "", None);
            var b := TaskDefinition("b", "b:core:build", None, "build", "core", Some("/w/b/core/build.gradle"), "/w", "", None);
            var t := AsWrittenPlace(AsWrittenPlace(AsWrittenTree(map[], map[]), a), b);
            && b.id in t.groups[AsWrittenGroupId(b)].tasks
            && t.groups[AsWrittenGroupId(b)].buildFile == a.buildFile.value != b.buildFile.value
            && t.projectGroups[b.buildFile.value] == []
            && ParentBuildFile(ParentFor(b, false)) == b.buildFile.value
  {
    var a := TaskDefinition("a", "a:core:build", None, "build", "core", Some("/w/a/core/build.gradle"), "/w", "", None);
    var b := TaskDefinition("b", "b:core:build", None, "build", "core", Some("/w/b/core/build.gradle"), "/w", "", None);
    assert AsWrittenGroupId(a) == AsWrittenGroupId(b) == "buildcore";
    assert a.buildFile.value != b.buildFile.value;
    var t1 := AsWrittenPlace(AsWrittenTree(map[], map[]), a);
    assert b.buildFile.value !in t1.projectGroups;
  }

  /** The group key the tree uses: the group within the project of the
      task's build file. */
  function GroupKeyOf(d: TaskDefinition): (k: GroupKey)
    requires HasBuildFile(d)
    ensures k.group == d.group && Some(k.buildFile) == d.buildFile
  {
    GroupKey(d.group, d.buildFile.value)
  }

  /** Two tasks share a group item exactly when they have the same group and
      the same build file, hence the same project item. */
  lemma GroupKeySharedIffSameGroupAndProject(d1: TaskDefinition, d2: TaskDefinition)
    requires HasBuildFile(d1) && HasBuildFile(d2)
    ensures GroupKeyOf(d1) == GroupKeyOf(d2) <==> d1.group == d2.group && d1.buildFile == d2.buildFile
  {
    if d1.group == d2.group && d1.buildFile == d2.buildFile {
      assert d1.buildFile.value == d2.buildFile.value;
    }
  }

  /** Where a task is placed: under its project when collapsed, else under its group. */
  function ParentFor(d: TaskDefinition, collapsed: bool): Parent
    requires HasBuildFile(d)
  {
    if collapsed then ProjectParent(d.buildFile.value) else GroupParent(GroupKeyOf(d))
  }

  /** The build file of the project a parent belongs to. */
  function ParentBuildFile(p: Parent): string {
    match p
    case ProjectParent(b) => b
    case GroupParent(g) => g.buildFile
  }

  /** The item built for a task. */
  function ItemFor(d: TaskDefinition, collapsed: bool, javaDebug: string): TaskItem
    requires HasBuildFile(d)
  {
    TaskItem(ParentFor(d, collapsed), d, TaskLabel(d.script), TaskDescription(d), javaDebug)
  }

  /** A task item carries its label and description, and it belongs to the
      project of its own build file and, under a group, to its own group. */
  predicate WellFormedItem(t: TaskItem) {
    && HasBuildFile(t.definition)
    && t.definition.buildFile.value == ParentBuildFile(t.parent)
    && (t.parent.GroupParent? ==> t.parent.key.group == t.definition.group)
    && t.text == TaskLabel(t.definition.script)
    && t.description == TaskDescription(t.definition)
  }

  /** The module-level maps: task items by task id, root items by project
      folder, project items by build file, group items by key, java-debug
      entries by project folder; `rootOrder` is the order in which the root
      map iterates its entries (a JavaScript `Map` keeps insertion order). */
  datatype Tree = Tree(
    taskItems: map<string, TaskItem>,
    roots: map<string, RootProjectItem>,
    rootOrder: seq<string>,
    projects: map<string, ProjectItem>,
    groups: map<GroupKey, GroupItem>,
    javaDebug: map<string, string>)

  /** The maps after `resetCachedTreeItems`. */
  const EmptyTree := Tree(map[], map[], [], map[], map[], map[])

  /** The task items under a parent. */
  function TasksUnder(p: Parent, t: Tree): seq<TaskItem> {
    match p
    case ProjectParent(b) => if b in t.projects then t.projects[b].tasks else []
    case GroupParent(g) => if g in t.groups then t.groups[g].tasks else []
  }

  /** A task that reached the tree: its item hangs under the parent it
      belongs to, and its id, build file and project folder are registered. */
  ghost predicate Placed(d: TaskDefinition, collapsed: bool, t: Tree) {
    && HasBuildFile(d)
    && d.projectFolder in t.javaDebug
    && d.id in t.taskItems
    && d.buildFile.value in t.projects
    && ItemFor(d, collapsed, t.javaDebug[d.projectFolder]) in TasksUnder(ParentFor(d, collapsed), t)
  }

  /** Building only ever adds: items stay, task lists only grow and
      java-debug entries are never replaced. */
  ghost predicate Grows(t0: Tree, t1: Tree) {
    && (forall b :: b in t0.projects ==> b in t1.projects && t0.projects[b].tasks <= t1.projects[b].tasks)
    && (forall g :: g in t0.groups ==> g in t1.groups && t0.groups[g].tasks <= t1.groups[g].tasks)
    && (forall f :: f in t0.javaDebug ==> f in t1.javaDebug && t1.javaDebug[f] == t0.javaDebug[f])
    && (forall id :: id in t0.taskItems ==> id in t1.taskItems)
  }

  lemma PrefixTransitive<T>(a: seq<T>, b: seq<T>, c: seq<T>)
    requires a <= b && b <= c
    ensures a <= c
  {
    assert c[..|b|][..|a|] == c[..|a|];
  }

  lemma GrowsTransitive(t0: Tree, t1: Tree, t2: Tree)
    requires Grows(t0, t1) && Grows(t1, t2)
    ensures Grows(t0, t2)
  {
    forall b | b in t0.projects ensures t0.projects[b].tasks <= t2.projects[b].tasks {
      PrefixTransitive(t0.projects[b].tasks, t1.projects[b].tasks, t2.projects[b].tasks);
    }
    forall g | g in t0.groups ensures t0.groups[g].tasks <= t2.groups[g].tasks {
      PrefixTransitive(t0.groups[g].tasks, t1.groups[g].tasks, t2.groups[g].tasks);
    }
  }

  /** A placed task stays placed while the tree grows. */
  lemma PlacedStaysPlaced(d: TaskDefinition, collapsed: bool, t0: Tree, t1: Tree)
    requires Placed(d, collapsed, t0) && Grows(t0, t1)
    ensures Placed(d, collapsed, t1)
  {
    var item := ItemFor(d, collapsed, t0.javaDebug[d.projectFolder]);
    var s0 := TasksUnder(ParentFor(d, collapsed), t0);
    var s1 := TasksUnder(ParentFor(d, collapsed), t1);
    assert s0 <= s1;
    var k :| 0 <= k < |s0| && s0[k] == item;
    assert s1[k] == item;
  }

  /** `folders` with each one not yet in `order` appended once, in order. */
  function AddDistinct(order: seq<string>, folders: seq<string>): seq<string> {
    if folders == [] then order
    else
      var p := AddDistinct(order, folders[..|folders| - 1]);
      var f := folders[|folders| - 1];
      if f in p then p else p + [f]
  }

  /** Appending distinct folders keeps the order's entries in front, lists
      each folder once and lists exactly the folders of both. */
  lemma {:induction false} AddDistinctProperties(order: seq<string>, folders: seq<string>)
    requires NoDups(order)
    ensures order <= AddDistinct(order, folders)
    ensures NoDups(AddDistinct(order, folders))
    ensures forall f :: f in AddDistinct(order, folders) <==> f in order || f in folders
  {
    if folders != [] {
      var n := |folders| - 1;
      AddDistinctProperties(order, folders[..n]);
      var p := AddDistinct(order, folders[..n]);
      assert folders == folders[..n] + [folders[n]];
      if folders[n] !in p {
        assert p <= p + [folders[n]];
        PrefixTransitive(order, p, p + [folders[n]]);
      }
    }
  }

  lemma AddDistinctSnoc(order: seq<string>, folders: seq<string>, f: string)
    ensures AddDistinct(order, folders + [f]) ==
              if f in AddDistinct(order, folders) then AddDistinct(order, folders) else AddDistinct(order, folders) + [f]
  {
    assert (folders + [f])[..|folders|] == folders;
  }

  /** The project folders of the eligible tasks, in order. */
  function EligibleFolders(entries: seq<TaskEntry>): seq<string> {
    if entries == [] then []
    else
      var e := entries[|entries| - 1];
      EligibleFolders(entries[..|entries| - 1]) + (if Eligible(e) then [e.definition.projectFolder] else [])
  }

  lemma DistinctCardinality(s: seq<string>)
    requires NoDups(s)
    ensures |set x | x in s| == |s|
  {
    if s != [] {
      var n := |s| - 1;
      assert NoDups(s[..n]);
      DistinctCardinality(s[..n]);
      assert (set x | x in s) == (set x | x in s[..n]) + {s[n]};
    }
  }

  function ProjectElements(bs: seq<string>): (r: seq<Element>)
    ensures |r| == |bs| && forall i :: 0 <= i < |bs| ==> r[i] == ProjectElement(bs[i])
  {
    seq(|bs|, i requires 0 <= i < |bs| => ProjectElement(bs[i]))
  }

  function RootElements(fs: seq<string>): (r: seq<Element>)
    ensures |r| == |fs| && forall i :: 0 <= i < |fs| ==> r[i] == RootElement(fs[i])
  {
    seq(|fs|, i requires 0 <= i < |fs| => RootElement(fs[i]))
  }

  function GroupElements(gs: seq<GroupKey>): (r: seq<Element>)
    ensures |r| == |gs| && forall i :: 0 <= i < |gs| ==> r[i] == GroupElement(gs[i])
  {
    seq(|gs|, i requires 0 <= i < |gs| => GroupElement(gs[i]))
  }

  function TaskElements(ts: seq<TaskItem>): (r: seq<Element>)
    ensures |r| == |ts| && forall i :: 0 <= i < |ts| ==> r[i] == TaskElement(ts[i])
  {
    seq(|ts|, i requires 0 <= i < |ts| => TaskElement(ts[i]))
  }

  /** One root per project folder, listed once in insertion order. */
  ghost predicate RootsOk(roots: map<string, RootProjectItem>, rootOrder: seq<string>) {
    && NoDups(rootOrder)
    && (forall k :: 0 <= k < |rootOrder| ==> rootOrder[k] in roots)
    && (forall f :: f in roots ==> roots[f].projectFolder == f && NoDups(roots[f].projects))
  }

  /** One project per build file, listed once by its own root and by no other root. */
  ghost predicate ProjectsOk(roots: map<string, RootProjectItem>, projects: map<string, ProjectItem>) {
    && (forall f, i :: f in roots && 0 <= i < |roots[f].projects| ==>
          roots[f].projects[i] in projects && projects[roots[f].projects[i]].rootFolder == f)
    && (forall b :: b in projects ==>
          && projects[b].buildFile == b
          && projects[b].rootFolder in roots
          && b in roots[projects[b].rootFolder].projects)
  }

  /** One group per key, listed once by the project of its build file. */
  ghost predicate GroupsOk(projects: map<string, ProjectItem>, groups: map<GroupKey, GroupItem>) {
    && (forall b :: b in projects ==> NoDups(projects[b].groups))
    && (forall b, i :: b in projects && 0 <= i < |projects[b].groups| ==>
          projects[b].groups[i] in groups && projects[b].groups[i].buildFile == b)
    && (forall g :: g in groups ==>
          && g.buildFile in projects
          && g in projects[g.buildFile].groups
          && groups[g].text == g.group
          && groups[g].buildFile == g.buildFile)
  }

  /** Every item of `ts` is well formed and hangs under `parent`. */
  ghost predicate ItemsOk(ts: seq<TaskItem>, parent: Parent) {
    forall i :: 0 <= i < |ts| ==> ts[i].parent == parent && WellFormedItem(ts[i])
  }

  lemma ItemsOkSnoc(ts: seq<TaskItem>, parent: Parent, item: TaskItem)
    requires ItemsOk(ts, parent) && item.parent == parent && WellFormedItem(item)
    ensures ItemsOk(ts + [item], parent)
  {
    var ts1 := ts + [item];
    forall i | 0 <= i < |ts1|
      ensures ts1[i].parent == parent && WellFormedItem(ts1[i])
    {
      if i < |ts| {
        assert ts1[i] == ts[i];
      }
    }
  }

  ghost predicate ProjectTasksOk(projects: map<string, ProjectItem>) {
    forall b :: b in projects ==> ItemsOk(projects[b].tasks, ProjectParent(b))
  }

  ghost predicate GroupTasksOk(groups: map<GroupKey, GroupItem>) {
    forall g :: g in groups ==> ItemsOk(groups[g].tasks, GroupParent(g))
  }

  /** Each task item is stored under its own task's id. */
  ghost predicate ItemIdsOk(taskItems: map<string, TaskItem>) {
    forall id :: id in taskItems ==> taskItems[id].definition.id == id
  }

  ghost predicate TasksOk(projects: map<string, ProjectItem>, groups: map<GroupKey, GroupItem>, taskItems: map<string, TaskItem>) {
    ProjectTasksOk(projects) && GroupTasksOk(groups) && ItemIdsOk(taskItems)
  }

  lemma ProjectTasksOkSnoc(projects: map<string, ProjectItem>, item: TaskItem)
    requires ProjectTasksOk(projects) && WellFormedItem(item)
    requires item.parent.ProjectParent? && item.parent.buildFile in projects
    ensures var b := item.parent.buildFile;
            ProjectTasksOk(projects[b := projects[b].(tasks := projects[b].tasks + [item])])
  {
    ItemsOkSnoc(projects[item.parent.buildFile].tasks, item.parent, item);
  }

  lemma GroupTasksOkSnoc(groups: map<GroupKey, GroupItem>, item: TaskItem)
    requires GroupTasksOk(groups) && WellFormedItem(item)
    requires item.parent.GroupParent? && item.parent.key in groups
    ensures var g := item.parent.key;
            GroupTasksOk(groups[g := groups[g].(tasks := groups[g].tasks + [item])])
  {
    ItemsOkSnoc(groups[item.parent.key].tasks, item.parent, item);
  }

  lemma ItemIdsOkAdd(taskItems: map<string, TaskItem>, item: TaskItem)
    requires ItemIdsOk(taskItems)
    ensures ItemIdsOk(taskItems[item.definition.id := item])
  {
  }

  lemma NoDupsSnoc<T>(s: seq<T>, x: T)
    requires NoDups(s) && x !in s
    ensures NoDups(s + [x])
  {
    var t := s + [x];
    forall i, j | 0 <= i < j < |t| ensures t[i] != t[j] {
      if j == |s| {
        assert t[i] == s[i];
      } else {
        assert t[i] == s[i] && t[j] == s[j];
      }
    }
  }

  /** Project links do not depend on a project's groups and tasks. */
  lemma ProjectsOkIgnoresChildren(roots: map<string, RootProjectItem>, projects: map<string, ProjectItem>, b: string, p: ProjectItem)
    requires ProjectsOk(roots, projects) && b in projects
    requires p.rootFolder == projects[b].rootFolder && p.buildFile == projects[b].buildFile
    ensures ProjectsOk(roots, projects[b := p])
  {
  }

  /** Group links do not depend on a project's tasks. */
  lemma GroupsOkIgnoresProjectTasks(projects: map<string, ProjectItem>, groups: map<GroupKey, GroupItem>, b: string, p: ProjectItem)
    requires GroupsOk(projects, groups) && b in projects && p.groups == projects[b].groups
    ensures GroupsOk(projects[b := p], groups)
  {
  }

  /** Group links do not depend on a group's tasks. */
  lemma GroupsOkIgnoresGroupTasks(projects: map<string, ProjectItem>, groups: map<GroupKey, GroupItem>, g: GroupKey, gi: GroupItem)
    requires GroupsOk(projects, groups) && g in groups
    requires gi.text == groups[g].text && gi.buildFile == groups[g].buildFile
    ensures GroupsOk(projects, groups[g := gi])
  {
  }

  /** Task placement does not depend on which groups a project lists, and a
      new empty group holds no task. */
  lemma TasksOkIgnoresGroups(
    projects: map<string, ProjectItem>, groups: map<GroupKey, GroupItem>, taskItems: map<string, TaskItem>,
    b: string, groupsOfB: seq<GroupKey>, g: GroupKey, gi: GroupItem)
    requires TasksOk(projects, groups, taskItems) && b in projects && g !in groups && gi.tasks == []
    ensures TasksOk(projects[b := projects[b].(groups := groupsOfB)], groups[g := gi], taskItems)
  {
  }

  lemma TasksOkAddProjectItem(
    projects: map<string, ProjectItem>, groups: map<GroupKey, GroupItem>, taskItems: map<string, TaskItem>, item: TaskItem)
    requires TasksOk(projects, groups, taskItems) && WellFormedItem(item)
    requires item.parent.ProjectParent? && item.parent.buildFile in projects
    ensures var b := item.parent.buildFile;
            TasksOk(projects[b := projects[b].(tasks := projects[b].tasks + [item])], groups, taskItems[item.definition.id := item])
  {
    ProjectTasksOkSnoc(projects, item);
    ItemIdsOkAdd(taskItems, item);
  }

  lemma TasksOkAddGroupItem(
    projects: map<string, ProjectItem>, groups: map<GroupKey, GroupItem>, taskItems: map<string, TaskItem>, item: TaskItem)
    requires TasksOk(projects, groups, taskItems) && WellFormedItem(item)
    requires item.parent.GroupParent? && item.parent.key in groups
    ensures var g := item.parent.key;
            TasksOk(projects, groups[g := groups[g].(tasks := groups[g].tasks + [item])], taskItems[item.definition.id := item])
  {
    GroupTasksOkSnoc(groups, item);
    ItemIdsOkAdd(taskItems, item);
  }

  /** The shape of the tree the maps hold. */
  ghost predicate TreeOk(t: Tree) {
    && RootsOk(t.roots, t.rootOrder)
    && ProjectsOk(t.roots, t.projects)
    && GroupsOk(t.projects, t.groups)
    && TasksOk(t.projects, t.groups, t.taskItems)
  }

  /** Every root is in the root order (with `RootsOk`: exactly the roots are). */
  ghost predicate OrderOk(t: Tree) {
    forall f :: f in t.roots ==> f in t.rootOrder
  }

  /** The root item of a project folder, created on first sight. */
  function WithRoot(t: Tree, folder: string, name: string): (r: Tree)
    ensures r.roots.Keys == t.roots.Keys + {folder}
    ensures r.rootOrder == t.rootOrder + (if folder in t.roots then [] else [folder])
    ensures r.javaDebug == t.javaDebug
  {
    if folder in t.roots then t
    else t.(roots := t.roots[folder := RootProjectItem(name, folder, [])], rootOrder := t.rootOrder + [folder])
  }

  /** The java-debug setting of the workspace folder a project folder lies in. */
  function WithJavaDebug(t: Tree, folder: string, config: string): (r: Tree)
    ensures folder in r.javaDebug
    ensures r.roots == t.roots && r.rootOrder == t.rootOrder
  {
    t.(javaDebug := t.javaDebug[folder := config])
  }

  /** The project item of a build file, created on first sight and added to
      the projects of the root of `folder`. */
  function WithProject(t: Tree, b: string, name: string, folder: string): (r: Tree)
    requires folder in t.roots
    ensures b in r.projects
    ensures r.roots.Keys == t.roots.Keys && r.rootOrder == t.rootOrder && r.javaDebug == t.javaDebug
  {
    if b in t.projects then t
    else t.(projects := t.projects[b := ProjectItem(name, folder, b, [], [])],
            roots := t.roots[folder := t.roots[folder].(projects := t.roots[folder].projects + [b])])
  }

  /** The group item of a key, created on first sight and added to the
      groups of its project. */
  function WithGroup(t: Tree, g: GroupKey): (r: Tree)
    requires g.buildFile in t.projects
    ensures g in r.groups && g.buildFile in r.projects
    ensures r.roots == t.roots && r.rootOrder == t.rootOrder && r.javaDebug == t.javaDebug
  {
    if g in t.groups then t
    else
      var b := g.buildFile;
      t.(groups := t.groups[g := GroupItem(g.group, b, [])],
         projects := t.projects[b := t.projects[b].(groups := t.projects[b].groups + [g])])
  }

  /** A task item entered in the task map and appended under its parent. */
  function WithItem(t: Tree, item: TaskItem): (r: Tree)
    requires item.parent.ProjectParent? ==> item.parent.buildFile in t.projects
    requires item.parent.GroupParent? ==> item.parent.key in t.groups
    ensures r.roots == t.roots && r.rootOrder == t.rootOrder && r.javaDebug == t.javaDebug
  {
    var t1 := t.(taskItems := t.taskItems[item.definition.id := item]);
    match item.parent
    case ProjectParent(b) => t1.(projects := t.projects[b := t.projects[b].(tasks := t.projects[b].tasks + [item])])
    case GroupParent(g) => t1.(groups := t.groups[g := t.groups[g].(tasks := t.groups[g].tasks + [item])])
  }

  /** The part of the `forEach` body after the checks: the project item of
      the task's build file, its group item unless collapsed, and the task
      item under the one or the other. */
  function Place(t: Tree, d: TaskDefinition, collapsed: bool): (r: Tree)
    requires HasBuildFile(d) && d.projectFolder in t.roots && d.projectFolder in t.javaDebug
    ensures r.roots.Keys == t.roots.Keys && r.rootOrder == t.rootOrder && r.javaDebug == t.javaDebug
  {
    var b := d.buildFile.value;
    var t1 := WithProject(t, b, d.project, d.projectFolder);
    var t2 := if collapsed then t1 else WithGroup(t1, GroupKey(d.group, b));
    WithItem(t2, ItemFor(d, collapsed, t.javaDebug[d.projectFolder]))
  }

  /** What one task does to the maps, and whether it throws. */
  datatype Step = Step(tree: Tree, outcome: Outcome<string>)

  /** The body of the `forEach` in `buildItemsTreeFromTasks`, for one task:
      an eligible task gets its root item; a task whose project folder lies
      in no workspace folder stops there; a task without a build file
      throws; any other task is placed. */
  function StepTask(
    t: Tree, e: TaskEntry, collapsed: bool, workspaceFolderOf: string -> Option<string>, basename: string -> string): Step
  {
    var d := e.definition;
    var folder := d.projectFolder;
    if !Eligible(e) then Step(t, Pass)
    else
      var t1 := WithRoot(t, folder, basename(folder));
      if folder !in t1.javaDebug && workspaceFolderOf(folder).None? then Step(t1, Pass)
      else
        var t2 := if folder in t1.javaDebug then t1 else WithJavaDebug(t1, folder, workspaceFolderOf(folder).value);
        if !HasBuildFile(d) then Step(t2, Fail(BuildFileMissing))
        else Step(Place(t2, d, collapsed), Pass)
  }

  /** The `forEach` over the tasks: each task in order, stopping at the
      first one that throws. */
  function BuildTasks(
    t: Tree, entries: seq<TaskEntry>, collapsed: bool,
    workspaceFolderOf: string -> Option<string>, basename: string -> string): Step
    decreases |entries|
  {
    if entries == [] then Step(t, Pass)
    else
      var previous := BuildTasks(t, entries[..|entries| - 1], collapsed, workspaceFolderOf, basename);
      if previous.outcome.Fail? then previous
      else StepTask(previous.tree, entries[|entries| - 1], collapsed, workspaceFolderOf, basename)
  }

  /** The top-level items: the projects of the only root when there is
      exactly one, otherwise every root in insertion order. */
  function TopLevel(t: Tree): seq<Element> {
    if |t.rootOrder| == 1 && t.rootOrder[0] in t.roots then ProjectElements(t.roots[t.rootOrder[0]].projects)
    else RootElements(t.rootOrder)
  }

  /** What `buildItemsTreeFromTasks` returns or throws. */
  function BuildResult(s: Step): Result<seq<Element>, string> {
    if s.outcome.Fail? then Failure(s.outcome.error) else Success(TopLevel(s.tree))
  }

  /** `getChildren` on an element: a root's projects, a project's groups
      followed by its tasks, a group's tasks, and nothing below a task or
      the no-tasks item. */
  function Children(t: Tree, e: Element): seq<Element> {
    match e
    case RootElement(f) => if f in t.roots then ProjectElements(t.roots[f].projects) else []
    case ProjectElement(b) =>
      if b in t.projects then GroupElements(t.projects[b].groups) + TaskElements(t.projects[b].tasks) else []
    case GroupElement(g) => if g in t.groups then TaskElements(t.groups[g].tasks) else []
    case TaskElement(_) => []
    case NoTasksElement => []
  }

  /** `getParent`: the parent item an element was created with; a root item
      and the no-tasks item have none. */
  function ParentOf(t: Tree, e: Element): Option<Element> {
    match e
    case RootElement(_) => None
    case ProjectElement(b) => if b in t.projects then Some(RootElement(t.projects[b].rootFolder)) else None
    case GroupElement(g) => if g in t.groups then Some(ProjectElement(t.groups[g].buildFile)) else None
    case TaskElement(item) =>
      (match item.parent
       case ProjectParent(b) => Some(ProjectElement(b))
       case GroupParent(g) => Some(GroupElement(g)))
    case NoTasksElement => None
  }

  lemma RootChildrenPointBack(t: Tree, f: string)
    requires ProjectsOk(t.roots, t.projects)
    ensures forall c :: c in Children(t, RootElement(f)) ==> ParentOf(t, c) == Some(RootElement(f))
  {
    if f in t.roots {
      var bs := t.roots[f].projects;
      forall c | c in Children(t, RootElement(f)) ensures ParentOf(t, c) == Some(RootElement(f)) {
        var i :| 0 <= i < |bs| && c == ProjectElement(bs[i]);
      }
    }
  }

  lemma ProjectChildrenPointBack(t: Tree, b: string)
    requires GroupsOk(t.projects, t.groups) && ProjectTasksOk(t.projects)
    ensures forall c :: c in Children(t, ProjectElement(b)) ==> ParentOf(t, c) == Some(ProjectElement(b))
  {
    if b in t.projects {
      var gs := t.projects[b].groups;
      var ts := t.projects[b].tasks;
      forall c | c in Children(t, ProjectElement(b)) ensures ParentOf(t, c) == Some(ProjectElement(b)) {
        if c in GroupElements(gs) {
          var i :| 0 <= i < |gs| && c == GroupElement(gs[i]);
        } else {
          var i :| 0 <= i < |ts| && c == TaskElement(ts[i]);
        }
      }
    }
  }

  lemma GroupChildrenPointBack(t: Tree, g: GroupKey)
    requires GroupTasksOk(t.groups)
    ensures forall c :: c in Children(t, GroupElement(g)) ==> ParentOf(t, c) == Some(GroupElement(g))
  {
    if g in t.groups {
      var ts := t.groups[g].tasks;
      forall c | c in Children(t, GroupElement(g)) ensures ParentOf(t, c) == Some(GroupElement(g)) {
        var i :| 0 <= i < |ts| && c == TaskElement(ts[i]);
      }
    }
  }

  /** Every child `getChildren` lists has the element it was asked about
      as its parent. */
  lemma ChildrenPointBack(t: Tree, e: Element)
    requires TreeOk(t)
    ensures forall c :: c in Children(t, e) ==> ParentOf(t, c) == Some(e)
  {
    match e
    case RootElement(f) => RootChildrenPointBack(t, f);
    case ProjectElement(b) => ProjectChildrenPointBack(t, b);
    case GroupElement(g) => GroupChildrenPointBack(t, g);
    case TaskElement(_) =>
    case NoTasksElement =>
  }

  lemma WithRootKeepsTree(t: Tree, folder: string, name: string)
    requires TreeOk(t)
    ensures TreeOk(WithRoot(t, folder, name))
    ensures OrderOk(t) ==> OrderOk(WithRoot(t, folder, name))
  {
    if folder !in t.roots {
      assert forall k :: 0 <= k < |t.rootOrder| ==> t.rootOrder[k] != folder;
      NoDupsSnoc(t.rootOrder, folder);
    }
  }

  /** A new project is listed by its root, and every other project stays listed by its own. */
  lemma WithProjectProjectsOk(t: Tree, b: string, name: string, folder: string)
    requires TreeOk(t) && folder in t.roots && b !in t.projects
    ensures ProjectsOk(WithProject(t, b, name, folder).roots, WithProject(t, b, name, folder).projects)
  {
    var r := WithProject(t, b, name, folder);
    forall f, i | f in r.roots && 0 <= i < |r.roots[f].projects|
      ensures r.roots[f].projects[i] in r.projects && r.projects[r.roots[f].projects[i]].rootFolder == f
    {
      if f == folder && i == |t.roots[folder].projects| {
        assert r.roots[f].projects[i] == b;
      } else {
        assert r.roots[f].projects[i] == t.roots[f].projects[i];
      }
    }
    forall c | c in r.projects
      ensures && r.projects[c].buildFile == c
              && r.projects[c].rootFolder in r.roots
              && c in r.roots[r.projects[c].rootFolder].projects
    {
      if c == b {
        assert r.roots[folder].projects[|t.roots[folder].projects|] == b;
      } else {
        var p := t.projects[c].rootFolder;
        var k :| 0 <= k < |t.roots[p].projects| && t.roots[p].projects[k] == c;
        assert r.roots[p].projects[k] == c;
      }
    }
  }

  /** A new project with no groups and no tasks leaves the group and task links as they were. */
  lemma {:induction false} NewProjectKeepsLinks(
    projects: map<string, ProjectItem>, groups: map<GroupKey, GroupItem>, taskItems: map<string, TaskItem>,
    b: string, p: ProjectItem)
    requires GroupsOk(projects, groups) && TasksOk(projects, groups, taskItems)
    requires b !in projects && p.groups == [] && p.tasks == []
    ensures GroupsOk(projects[b := p], groups) && TasksOk(projects[b := p], groups, taskItems)
  {
    var ps := projects[b := p];
    forall g | g in groups ensures g.buildFile in ps && g in ps[g.buildFile].groups {
      assert g.buildFile != b;
    }
    forall c | c in ps ensures ItemsOk(ps[c].tasks, ProjectParent(c)) {
      if c != b {
        assert ps[c] == projects[c];
      }
    }
  }

  lemma WithProjectKeepsTree(t: Tree, b: string, name: string, folder: string)
    requires TreeOk(t) && folder in t.roots
    ensures TreeOk(WithProject(t, b, name, folder))
  {
    if b !in t.projects {
      var inRoot := t.roots[folder].projects;
      var r := WithProject(t, b, name, folder);
      assert forall i :: 0 <= i < |inRoot| ==> inRoot[i] != b;
      NoDupsSnoc(inRoot, b);
      assert RootsOk(r.roots, r.rootOrder);
      WithProjectProjectsOk(t, b, name, folder);
      NewProjectKeepsLinks(t.projects, t.groups, t.taskItems, b, ProjectItem(name, folder, b, [], []));
    }
  }

  /** A new group is listed by its project, and every other group stays listed by its own. */
  lemma WithGroupGroupsOk(t: Tree, g: GroupKey)
    requires TreeOk(t) && g.buildFile in t.projects && g !in t.groups
    ensures GroupsOk(WithGroup(t, g).projects, WithGroup(t, g).groups)
  {
    var r := WithGroup(t, g);
    var b := g.buildFile;
    var inProject := t.projects[b].groups;
    assert forall i :: 0 <= i < |inProject| ==> inProject[i] != g;
    NoDupsSnoc(inProject, g);
    forall c, i | c in r.projects && 0 <= i < |r.projects[c].groups|
      ensures r.projects[c].groups[i] in r.groups && r.projects[c].groups[i].buildFile == c
    {
      if c == b && i == |inProject| {
        assert r.projects[c].groups[i] == g;
      } else {
        assert r.projects[c].groups[i] == t.projects[c].groups[i];
      }
    }
    forall h | h in r.groups
      ensures && h.buildFile in r.projects
              && h in r.projects[h.buildFile].groups
              && r.groups[h].text == h.group
              && r.groups[h].buildFile == h.buildFile
    {
      if h == g {
        assert r.projects[b].groups[|inProject|] == g;
      } else {
        var k :| 0 <= k < |t.projects[h.buildFile].groups| && t.projects[h.buildFile].groups[k] == h;
        assert r.projects[h.buildFile].groups[k] == h;
      }
    }
  }

  lemma WithGroupKeepsTree(t: Tree, g: GroupKey)
    requires TreeOk(t) && g.buildFile in t.projects
    ensures TreeOk(WithGroup(t, g))
  {
    if g !in t.groups {
      var b := g.buildFile;
      var inProject := t.projects[b].groups;
      ProjectsOkIgnoresChildren(t.roots, t.projects, b, t.projects[b].(groups := inProject + [g]));
      WithGroupGroupsOk(t, g);
      TasksOkIgnoresGroups(t.projects, t.groups, t.taskItems, b, inProject + [g], g, GroupItem(g.group, b, []));
    }
  }

  lemma WithItemKeepsTree(t: Tree, item: TaskItem)
    requires TreeOk(t) && WellFormedItem(item)
    requires item.parent.ProjectParent? ==> item.parent.buildFile in t.projects
    requires item.parent.GroupParent? ==> item.parent.key in t.groups
    ensures TreeOk(WithItem(t, item))
  {
    match item.parent
    case ProjectParent(b) =>
      var p := t.projects[b].(tasks := t.projects[b].tasks + [item]);
      ProjectsOkIgnoresChildren(t.roots, t.projects, b, p);
      GroupsOkIgnoresProjectTasks(t.projects, t.groups, b, p);
      TasksOkAddProjectItem(t.projects, t.groups, t.taskItems, item);
    case GroupParent(g) =>
      GroupsOkIgnoresGroupTasks(t.projects, t.groups, g, t.groups[g].(tasks := t.groups[g].tasks + [item]));
      TasksOkAddGroupItem(t.projects, t.groups, t.taskItems, item);
  }

  /** Placing a task keeps the tree well formed and leaves the roots as they are. */
  lemma PlaceKeepsTree(t: Tree, d: TaskDefinition, collapsed: bool)
    requires HasBuildFile(d) && d.projectFolder in t.roots && d.projectFolder in t.javaDebug
    requires TreeOk(t)
    ensures TreeOk(Place(t, d, collapsed))
    ensures Place(t, d, collapsed).rootOrder == t.rootOrder
    ensures forall f :: f in Place(t, d, collapsed).roots <==> f in t.roots
  {
    var b := d.buildFile.value;
    var t1 := WithProject(t, b, d.project, d.projectFolder);
    WithProjectKeepsTree(t, b, d.project, d.projectFolder);
    var t2 := if collapsed then t1 else WithGroup(t1, GroupKey(d.group, b));
    if !collapsed {
      WithGroupKeepsTree(t1, GroupKey(d.group, b));
    }
    WithItemKeepsTree(t2, ItemFor(d, collapsed, t.javaDebug[d.projectFolder]));
  }

  lemma WithRootGrows(t: Tree, folder: string, name: string)
    ensures Grows(t, WithRoot(t, folder, name))
  {
  }

  lemma WithJavaDebugGrows(t: Tree, folder: string, config: string)
    requires folder !in t.javaDebug
    ensures Grows(t, WithJavaDebug(t, folder, config))
  {
  }

  lemma WithProjectGrows(t: Tree, b: string, name: string, folder: string)
    requires folder in t.roots
    ensures Grows(t, WithProject(t, b, name, folder))
  {
  }

  lemma WithGroupGrows(t: Tree, g: GroupKey)
    requires g.buildFile in t.projects
    ensures Grows(t, WithGroup(t, g))
  {
  }

  lemma WithItemGrows(t: Tree, item: TaskItem)
    requires item.parent.ProjectParent? ==> item.parent.buildFile in t.projects
    requires item.parent.GroupParent? ==> item.parent.key in t.groups
    ensures Grows(t, WithItem(t, item))
    ensures TasksUnder(item.parent, WithItem(t, item)) == TasksUnder(item.parent, t) + [item]
    ensures item.definition.id in WithItem(t, item).taskItems
  {
  }

  /** A placed task's item hangs under its parent, and nothing is lost. */
  lemma PlacePlaces(t: Tree, d: TaskDefinition, collapsed: bool)
    requires HasBuildFile(d) && d.projectFolder in t.roots && d.projectFolder in t.javaDebug
    ensures Placed(d, collapsed, Place(t, d, collapsed))
    ensures Grows(t, Place(t, d, collapsed))
  {
    var b := d.buildFile.value;
    var t1 := WithProject(t, b, d.project, d.projectFolder);
    WithProjectGrows(t, b, d.project, d.projectFolder);
    var t2 := if collapsed then t1 else WithGroup(t1, GroupKey(d.group, b));
    if !collapsed {
      WithGroupGrows(t1, GroupKey(d.group, b));
      GrowsTransitive(t, t1, t2);
    }
    var item := ItemFor(d, collapsed, t.javaDebug[d.projectFolder]);
    WithItemGrows(t2, item);
    GrowsTransitive(t, t2, WithItem(t2, item));
  }

  /** One task keeps the tree well formed. */
  lemma StepTaskKeepsTree(
    t: Tree, e: TaskEntry, collapsed: bool, workspaceFolderOf: string -> Option<string>, basename: string -> string)
    requires TreeOk(t) && OrderOk(t)
    ensures var r := StepTask(t, e, collapsed, workspaceFolderOf, basename).tree;
            TreeOk(r) && OrderOk(r)
  {
    var d := e.definition;
    var folder := d.projectFolder;
    if Eligible(e) {
      var t1 := WithRoot(t, folder, basename(folder));
      WithRootKeepsTree(t, folder, basename(folder));
      if (folder in t1.javaDebug || workspaceFolderOf(folder).Some?) && HasBuildFile(d) {
        var t2 := if folder in t1.javaDebug then t1 else WithJavaDebug(t1, folder, workspaceFolderOf(folder).value);
        PlaceKeepsTree(t2, d, collapsed);
      }
    }
  }

  /** A task throws exactly when it gets past the workspace-folder lookup
      without a build file, and it throws the build-file error. */
  lemma StepTaskFailsIff(
    t: Tree, e: TaskEntry, collapsed: bool, workspaceFolderOf: string -> Option<string>, basename: string -> string)
    ensures var s := StepTask(t, e, collapsed, workspaceFolderOf, basename);
            && (s.outcome.Fail? <==> Reaches(e, t.javaDebug, workspaceFolderOf) && !HasBuildFile(e.definition))
            && (s.outcome.Fail? ==> s.outcome.error == BuildFileMissing)
  {
  }

  /** One task adds a java-debug entry only for a folder that lies in a
      workspace folder. */
  lemma StepTaskJavaDebug(
    t: Tree, e: TaskEntry, collapsed: bool, workspaceFolderOf: string -> Option<string>, basename: string -> string)
    ensures var r := StepTask(t, e, collapsed, workspaceFolderOf, basename).tree;
            forall f :: f in r.javaDebug ==> f in t.javaDebug || workspaceFolderOf(f).Some?
  {
  }

  /** One task only grows the tree. */
  lemma StepTaskGrows(
    t: Tree, e: TaskEntry, collapsed: bool, workspaceFolderOf: string -> Option<string>, basename: string -> string)
    ensures Grows(t, StepTask(t, e, collapsed, workspaceFolderOf, basename).tree)
  {
    var d := e.definition;
    var folder := d.projectFolder;
    if Eligible(e) {
      var t1 := WithRoot(t, folder, basename(folder));
      WithRootGrows(t, folder, basename(folder));
      if folder in t1.javaDebug || workspaceFolderOf(folder).Some? {
        var t2 := if folder in t1.javaDebug then t1 else WithJavaDebug(t1, folder, workspaceFolderOf(folder).value);
        if folder !in t1.javaDebug {
          WithJavaDebugGrows(t1, folder, workspaceFolderOf(folder).value);
          GrowsTransitive(t, t1, t2);
        }
        if HasBuildFile(d) {
          PlacePlaces(t2, d, collapsed);
          GrowsTransitive(t, t2, Place(t2, d, collapsed));
        }
      }
    }
  }

  /** A task that gets past the lookup and has a build file is placed. */
  lemma StepTaskPlaces(
    t: Tree, e: TaskEntry, collapsed: bool, workspaceFolderOf: string -> Option<string>, basename: string -> string)
    requires Reaches(e, t.javaDebug, workspaceFolderOf) && HasBuildFile(e.definition)
    ensures Placed(e.definition, collapsed, StepTask(t, e, collapsed, workspaceFolderOf, basename).tree)
  {
    var d := e.definition;
    var folder := d.projectFolder;
    var t1 := WithRoot(t, folder, basename(folder));
    var t2 := if folder in t1.javaDebug then t1 else WithJavaDebug(t1, folder, workspaceFolderOf(folder).value);
    PlacePlaces(t2, d, collapsed);
  }

  lemma PlaceTaskItems(t: Tree, d: TaskDefinition, collapsed: bool)
    requires HasBuildFile(d) && d.projectFolder in t.roots && d.projectFolder in t.javaDebug
    ensures Place(t, d, collapsed).taskItems.Keys == t.taskItems.Keys + {d.id}
  {
  }

  /** A task item is added only for the task at hand, and only when it gets
      past the lookup and has a build file. */
  lemma StepTaskOnlyReached(
    t: Tree, e: TaskEntry, collapsed: bool, workspaceFolderOf: string -> Option<string>, basename: string -> string)
    ensures var r := StepTask(t, e, collapsed, workspaceFolderOf, basename).tree;
            forall id :: id in r.taskItems ==>
              id in t.taskItems
              || (Reaches(e, t.javaDebug, workspaceFolderOf) && HasBuildFile(e.definition) && id == e.definition.id)
  {
    var d := e.definition;
    var folder := d.projectFolder;
    if Eligible(e) {
      var t1 := WithRoot(t, folder, basename(folder));
      if (folder in t1.javaDebug || workspaceFolderOf(folder).Some?) && HasBuildFile(d) {
        var t2 := if folder in t1.javaDebug then t1 else WithJavaDebug(t1, folder, workspaceFolderOf(folder).value);
        PlaceTaskItems(t2, d, collapsed);
      }
    }
  }

  /** An eligible task's project folder gets a root item, appended to the
      root order the first time the folder is seen. */
  lemma StepTaskRoots(
    t: Tree, e: TaskEntry, collapsed: bool, workspaceFolderOf: string -> Option<string>, basename: string -> string)
    ensures var r := StepTask(t, e, collapsed, workspaceFolderOf, basename).tree;
            var folder := e.definition.projectFolder;
            && r.rootOrder == t.rootOrder + (if Eligible(e) && folder !in t.roots then [folder] else [])
            && (forall f :: f in r.roots <==> f in t.roots || (Eligible(e) && f == folder))
  {
    var d := e.definition;
    if Eligible(e) {
      var t1 := WithRoot(t, d.projectFolder, basename(d.projectFolder));
      if (d.projectFolder in t1.javaDebug || workspaceFolderOf(d.projectFolder).Some?) && HasBuildFile(d) {
        var t2 := if d.projectFolder in t1.javaDebug then t1
                  else WithJavaDebug(t1, d.projectFolder, workspaceFolderOf(d.projectFolder).value);
      }
    }
  }

  /** The `forEach` keeps the tree well formed. */
  lemma {:induction false} BuildTasksKeepsTree(
    t: Tree, entries: seq<TaskEntry>, collapsed: bool,
    workspaceFolderOf: string -> Option<string>, basename: string -> string)
    requires TreeOk(t) && OrderOk(t)
    ensures var r := BuildTasks(t, entries, collapsed, workspaceFolderOf, basename).tree;
            TreeOk(r) && OrderOk(r)
    decreases |entries|
  {
    if entries != [] {
      var n := |entries| - 1;
      BuildTasksKeepsTree(t, entries[..n], collapsed, workspaceFolderOf, basename);
      var previous := BuildTasks(t, entries[..n], collapsed, workspaceFolderOf, basename);
      if previous.outcome.Pass? {
        StepTaskKeepsTree(previous.tree, entries[n], collapsed, workspaceFolderOf, basename);
      }
    }
  }

  /** The tree only grows over the `forEach`, and java-debug entries are
      added only for folders that lie in a workspace folder. */
  lemma {:induction false} BuildTasksGrows(
    t: Tree, entries: seq<TaskEntry>, collapsed: bool,
    workspaceFolderOf: string -> Option<string>, basename: string -> string)
    ensures var r := BuildTasks(t, entries, collapsed, workspaceFolderOf, basename).tree;
            && Grows(t, r)
            && (forall f :: f in r.javaDebug ==> f in t.javaDebug || workspaceFolderOf(f).Some?)
    decreases |entries|
  {
    if entries != [] {
      var n := |entries| - 1;
      BuildTasksGrows(t, entries[..n], collapsed, workspaceFolderOf, basename);
      var previous := BuildTasks(t, entries[..n], collapsed, workspaceFolderOf, basename);
      if previous.outcome.Pass? {
        StepTaskGrows(previous.tree, entries[n], collapsed, workspaceFolderOf, basename);
        StepTaskJavaDebug(previous.tree, entries[n], collapsed, workspaceFolderOf, basename);
        GrowsTransitive(t, previous.tree, StepTask(previous.tree, entries[n], collapsed, workspaceFolderOf, basename).tree);
      }
    }
  }

  /** Whether a task gets past the lookup does not change while the tree is
      built, as long as java-debug entries come only from workspace folders. */
  lemma ReachesStable(e: TaskEntry, j0: map<string, string>, j1: map<string, string>, workspaceFolderOf: string -> Option<string>)
    requires forall f :: f in j0 ==> f in j1
    requires forall f :: f in j1 ==> f in j0 || workspaceFolderOf(f).Some?
    ensures Reaches(e, j1, workspaceFolderOf) <==> Reaches(e, j0, workspaceFolderOf)
  {
  }

  /** The `forEach` throws exactly when some task gets past the lookup
      without a build file, and then it throws the build-file error. */
  lemma {:induction false} BuildTasksFailsIff(
    t: Tree, entries: seq<TaskEntry>, collapsed: bool,
    workspaceFolderOf: string -> Option<string>, basename: string -> string)
    ensures var s := BuildTasks(t, entries, collapsed, workspaceFolderOf, basename);
            && (s.outcome.Fail? <==>
                  exists k :: 0 <= k < |entries| && Reaches(entries[k], t.javaDebug, workspaceFolderOf)
                                                 && !HasBuildFile(entries[k].definition))
            && (s.outcome.Fail? ==> s.outcome.error == BuildFileMissing)
    decreases |entries|
  {
    if entries != [] {
      var n := |entries| - 1;
      var front := entries[..n];
      BuildTasksFailsIff(t, front, collapsed, workspaceFolderOf, basename);
      BuildTasksGrows(t, front, collapsed, workspaceFolderOf, basename);
      var previous := BuildTasks(t, front, collapsed, workspaceFolderOf, basename);
      assert forall k :: 0 <= k < n ==> front[k] == entries[k];
      if previous.outcome.Pass? {
        StepTaskFailsIff(previous.tree, entries[n], collapsed, workspaceFolderOf, basename);
        ReachesStable(entries[n], t.javaDebug, previous.tree.javaDebug, workspaceFolderOf);
      } else {
        var k :| 0 <= k < n && Reaches(front[k], t.javaDebug, workspaceFolderOf) && !HasBuildFile(front[k].definition);
        assert entries[k] == front[k];
      }
    }
  }

  /** When the `forEach` completes, every task that got past the lookup is
      placed in the tree. */
  lemma {:induction false} BuildTasksPlacesAll(
    t: Tree, entries: seq<TaskEntry>, collapsed: bool,
    workspaceFolderOf: string -> Option<string>, basename: string -> string)
    ensures var s := BuildTasks(t, entries, collapsed, workspaceFolderOf, basename);
            s.outcome.Pass? ==>
              forall k :: 0 <= k < |entries| && Reaches(entries[k], t.javaDebug, workspaceFolderOf) ==>
                Placed(entries[k].definition, collapsed, s.tree)
    decreases |entries|
  {
    if entries != [] {
      var n := |entries| - 1;
      var front := entries[..n];
      var s := BuildTasks(t, entries, collapsed, workspaceFolderOf, basename);
      var previous := BuildTasks(t, front, collapsed, workspaceFolderOf, basename);
      if previous.outcome.Pass? {
        BuildTasksPlacesAll(t, front, collapsed, workspaceFolderOf, basename);
        BuildTasksGrows(t, front, collapsed, workspaceFolderOf, basename);
        StepTaskGrows(previous.tree, entries[n], collapsed, workspaceFolderOf, basename);
        StepTaskFailsIff(previous.tree, entries[n], collapsed, workspaceFolderOf, basename);
        ReachesStable(entries[n], t.javaDebug, previous.tree.javaDebug, workspaceFolderOf);
        if Reaches(entries[n], t.javaDebug, workspaceFolderOf) && s.outcome.Pass? {
          StepTaskPlaces(previous.tree, entries[n], collapsed, workspaceFolderOf, basename);
        }
        forall k | 0 <= k < |entries| && Reaches(entries[k], t.javaDebug, workspaceFolderOf) && s.outcome.Pass?
          ensures Placed(entries[k].definition, collapsed, s.tree)
        {
          if k < n {
            assert front[k] == entries[k];
            PlacedStaysPlaced(entries[k].definition, collapsed, previous.tree, s.tree);
          }
        }
      }
    }
  }

  /** One more task extends the root order as appending its folder, when
      eligible, to the folders seen so far. */
  lemma StepTaskRootOrder(
    t: Tree, e: TaskEntry, collapsed: bool, workspaceFolderOf: string -> Option<string>, basename: string -> string,
    order: seq<string>, folders: seq<string>)
    requires TreeOk(t) && OrderOk(t) && t.rootOrder == AddDistinct(order, folders)
    ensures StepTask(t, e, collapsed, workspaceFolderOf, basename).tree.rootOrder
            == AddDistinct(order, folders + (if Eligible(e) then [e.definition.projectFolder] else []))
  {
    StepTaskRoots(t, e, collapsed, workspaceFolderOf, basename);
    var f := e.definition.projectFolder;
    assert f in t.roots <==> f in t.rootOrder;
    if Eligible(e) {
      AddDistinctSnoc(order, folders, f);
    } else {
      assert folders + [] == folders;
    }
  }

  /** When the `forEach` completes, the roots are the project folders of the
      eligible tasks, each appended once, in the order first seen. */
  lemma {:induction false} BuildTasksRootOrder(
    t: Tree, entries: seq<TaskEntry>, collapsed: bool,
    workspaceFolderOf: string -> Option<string>, basename: string -> string)
    requires TreeOk(t) && OrderOk(t)
    ensures var s := BuildTasks(t, entries, collapsed, workspaceFolderOf, basename);
            s.outcome.Pass? ==> s.tree.rootOrder == AddDistinct(t.rootOrder, EligibleFolders(entries))
    decreases |entries|
  {
    if entries != [] {
      var n := |entries| - 1;
      var front := entries[..n];
      var previous := BuildTasks(t, front, collapsed, workspaceFolderOf, basename);
      if previous.outcome.Pass? {
        BuildTasksRootOrder(t, front, collapsed, workspaceFolderOf, basename);
        BuildTasksKeepsTree(t, front, collapsed, workspaceFolderOf, basename);
        StepTaskRootOrder(previous.tree, entries[n], collapsed, workspaceFolderOf, basename,
                          t.rootOrder, EligibleFolders(front));
      }
    }
  }

  /** When the `forEach` completes there is one root item per project
      folder of an eligible task, whether or not that task was placed. */
  lemma BuildTasksRoots(
    t: Tree, entries: seq<TaskEntry>, collapsed: bool,
    workspaceFolderOf: string -> Option<string>, basename: string -> string)
    requires TreeOk(t) && OrderOk(t)
    ensures var s := BuildTasks(t, entries, collapsed, workspaceFolderOf, basename);
            s.outcome.Pass? ==>
              && |s.tree.roots| == |s.tree.rootOrder|
              && forall f :: f in s.tree.roots <==> f in t.roots || f in EligibleFolders(entries)
  {
    var s := BuildTasks(t, entries, collapsed, workspaceFolderOf, basename);
    if s.outcome.Pass? {
      BuildTasksRootOrder(t, entries, collapsed, workspaceFolderOf, basename);
      BuildTasksKeepsTree(t, entries, collapsed, workspaceFolderOf, basename);
      AddDistinctProperties(t.rootOrder, EligibleFolders(entries));
      TopLevelListsRoots(s.tree);
    }
  }

  /** Every task item in the tree comes from a task that got past the
      lookup and has a build file: no other task is placed. */
  lemma {:induction false} BuildTasksOnlyReached(
    t: Tree, entries: seq<TaskEntry>, collapsed: bool,
    workspaceFolderOf: string -> Option<string>, basename: string -> string)
    ensures var r := BuildTasks(t, entries, collapsed, workspaceFolderOf, basename).tree;
            forall id :: id in r.taskItems ==>
              id in t.taskItems
              || exists k :: 0 <= k < |entries| && Reaches(entries[k], t.javaDebug, workspaceFolderOf)
                             && HasBuildFile(entries[k].definition) && entries[k].definition.id == id
    decreases |entries|
  {
    if entries != [] {
      var n := |entries| - 1;
      var front := entries[..n];
      var previous := BuildTasks(t, front, collapsed, workspaceFolderOf, basename);
      BuildTasksOnlyReached(t, front, collapsed, workspaceFolderOf, basename);
      if previous.outcome.Pass? {
        var r := StepTask(previous.tree, entries[n], collapsed, workspaceFolderOf, basename).tree;
        BuildTasksGrows(t, front, collapsed, workspaceFolderOf, basename);
        StepTaskOnlyReached(previous.tree, entries[n], collapsed, workspaceFolderOf, basename);
        ReachesStable(entries[n], t.javaDebug, previous.tree.javaDebug, workspaceFolderOf);
        forall id | id in r.taskItems && id !in t.taskItems
          ensures exists k :: 0 <= k < |entries| && Reaches(entries[k], t.javaDebug, workspaceFolderOf)
                              && HasBuildFile(entries[k].definition) && entries[k].definition.id == id
        {
          if id in previous.tree.taskItems {
            var k :| 0 <= k < n && Reaches(front[k], t.javaDebug, workspaceFolderOf)
                     && HasBuildFile(front[k].definition) && front[k].definition.id == id;
            assert entries[k] == front[k];
          } else {
            assert entries[n].definition.id == id;
          }
        }
      }
    }
  }

  /** The root item is registered before the workspace-folder lookup, so a
      task whose project folder lies in no workspace folder leaves a root
      with no projects. */
  lemma RootWithoutProjects(basename: string -> string)
    ensures var d := TaskDefinition("a", "build", None, "build", "p", Some("/p/build.gradle"), "/p", "", None);
            var s := BuildTasks(EmptyTree, [TaskEntry(d, true, true)], true, f => None, basename);
            && s.outcome.Pass?
            && s.tree.rootOrder == ["/p"]
            && s.tree.roots["/p"].projects == []
            && s.tree.taskItems == map[]
  {
    var d := TaskDefinition("a", "build", None, "build", "p", Some("/p/build.gradle"), "/p", "", None);
    var entries := [TaskEntry(d, true, true)];
    assert entries[..0] == [];
  }

  /** Once a task throws, the later ones are not processed. */
  lemma {:induction false} BuildTasksStopsAtFailure(
    t: Tree, entries: seq<TaskEntry>, n: nat, collapsed: bool,
    workspaceFolderOf: string -> Option<string>, basename: string -> string)
    requires n <= |entries|
    requires BuildTasks(t, entries[..n], collapsed, workspaceFolderOf, basename).outcome.Fail?
    ensures BuildTasks(t, entries, collapsed, workspaceFolderOf, basename)
            == BuildTasks(t, entries[..n], collapsed, workspaceFolderOf, basename)
    decreases |entries|
  {
    if n < |entries| {
      var front := entries[..|entries| - 1];
      assert front[..n] == entries[..n];
      BuildTasksStopsAtFailure(t, front, n, collapsed, workspaceFolderOf, basename);
    } else {
      assert entries[..n] == entries;
    }
  }

  /** In a well-formed tree the root order lists every root exactly once, so
      the source's test on the size of the root map is the test on the
      length of the root order, and with several roots the top level is
      every root. */
  lemma TopLevelListsRoots(t: Tree)
    requires TreeOk(t) && OrderOk(t)
    ensures |t.roots| == |t.rootOrder|
    ensures |t.roots| == 1 ==> TopLevel(t) == ProjectElements(t.roots[t.rootOrder[0]].projects)
    ensures |t.roots| != 1 ==> forall f :: RootElement(f) in TopLevel(t) <==> f in t.roots
  {
    DistinctCardinality(t.rootOrder);
    assert t.roots.Keys == set x | x in t.rootOrder;
  }

  class GradleTasksTreeDataProvider {
    var collapsed: bool
    /** The `gradleTasksCollapsed` workspace-state value and the
        `gradle:gradleTasksCollapsed` context key, as last written. */
    var storedCollapsed: Option<bool>
    var contextCollapsed: Option<bool>
    var refreshes: nat

    /** The module-level maps. */
    var taskItems: map<string, TaskItem>
    var roots: map<string, RootProjectItem>
    var rootOrder: seq<string>
    var projects: map<string, ProjectItem>
    var groups: map<GroupKey, GroupItem>
    var javaDebug: map<string, string>

    function State(): Tree
      reads this`taskItems, this`roots, this`rootOrder, this`projects, this`groups, this`javaDebug
    {
      Tree(taskItems, roots, rootOrder, projects, groups, javaDebug)
    }

    ghost predicate Valid()
      reads this`taskItems, this`roots, this`rootOrder, this`projects, this`groups, this`javaDebug
    {
      TreeOk(State()) && OrderOk(State())
    }

    /** The constructor: `collapsed` is the stored value, false when none is stored. */
    constructor (stored: Option<bool>)
      ensures Valid() && State() == EmptyTree
      ensures collapsed == (stored.Some? && stored.value)
      ensures storedCollapsed == Some(collapsed) && contextCollapsed == Some(collapsed) && refreshes == 1
    {
      collapsed := true;
      taskItems := map[];
      roots := map[];
      rootOrder := [];
      projects := map[];
      groups := map[];
      javaDebug := map[];
      storedCollapsed := None;
      contextCollapsed := None;
      refreshes := 0;
      new;
      SetCollapsed(stored.Some? && stored.value);
    }

    /** `setCollapsed`: records the value, persists it, sets the context key
        and refreshes the view. */
    method SetCollapsed(value: bool)
      modifies this`collapsed, this`storedCollapsed, this`contextCollapsed, this`refreshes
      ensures collapsed == value && storedCollapsed == Some(value) && contextCollapsed == Some(value)
      ensures refreshes == old(refreshes) + 1
    {
      collapsed := value;
      storedCollapsed := Some(value);
      contextCollapsed := Some(value);
      refreshes := refreshes + 1;
    }

    /** `resetCachedTreeItems`: all five maps are emptied. */
    method ResetCachedTreeItems()
      modifies this`taskItems, this`roots, this`rootOrder, this`projects, this`groups, this`javaDebug
      ensures Valid() && State() == EmptyTree
    {
      taskItems := map[];
      roots := map[];
      rootOrder := [];
      projects := map[];
      groups := map[];
      javaDebug := map[];
    }

    /** A root item for `folder`, unless it has one already. */
    method AddRoot(folder: string, name: string)
      modifies this`roots, this`rootOrder
      ensures State() == WithRoot(old(State()), folder, name)
    {
      if folder !in roots {
        roots := roots[folder := RootProjectItem(name, folder, [])];
        rootOrder := rootOrder + [folder];
      }
    }

    /** A project item for build file `b`, unless it has one already, added
        to the projects of the root item of `folder`. */
    method AddProject(b: string, name: string, folder: string)
      requires folder in roots
      modifies this`projects, this`roots
      ensures State() == WithProject(old(State()), b, name, folder)
    {
      if b !in projects {
        projects := projects[b := ProjectItem(name, folder, b, [], [])];
        roots := roots[folder := roots[folder].(projects := roots[folder].projects + [b])];
      }
    }

    /** A group item for `g`, unless it has one already, added to the groups
        of its project item. */
    method AddGroup(g: GroupKey)
      requires g.buildFile in projects
      modifies this`groups, this`projects
      ensures State() == WithGroup(old(State()), g)
    {
      if g !in groups {
        var b := g.buildFile;
        groups := groups[g := GroupItem(g.group, b, [])];
        projects := projects[b := projects[b].(groups := projects[b].groups + [g])];
      }
    }

    /** `gradleTaskTreeItemMap.set` followed by `parentTreeItem.addTask`. */
    method AddItem(item: TaskItem)
      requires item.parent.ProjectParent? ==> item.parent.buildFile in projects
      requires item.parent.GroupParent? ==> item.parent.key in groups
      modifies this`taskItems, this`projects, this`groups
      ensures State() == WithItem(old(State()), item)
    {
      taskItems := taskItems[item.definition.id := item];
      match item.parent
      case ProjectParent(b) =>
        projects := projects[b := projects[b].(tasks := projects[b].tasks + [item])];
      case GroupParent(g) =>
        groups := groups[g := groups[g].(tasks := groups[g].tasks + [item])];
    }

    /** The body of the `forEach` in `buildItemsTreeFromTasks`, for one task. */
    method AddTask(e: TaskEntry, workspaceFolderOf: string -> Option<string>, basename: string -> string)
      returns (r: Outcome<string>)
      modifies this`taskItems, this`roots, this`rootOrder, this`projects, this`groups, this`javaDebug
      ensures var s := StepTask(old(State()), e, collapsed, workspaceFolderOf, basename);
              State() == s.tree && r == s.outcome
    {
      var d := e.definition;
      var folder := d.projectFolder;
      if !(e.scopeIsWorkspaceFolder && e.isGradleTask) {
        return Pass;
      }
      AddRoot(folder, basename(folder));
      if folder !in javaDebug {
        var workspaceFolder := workspaceFolderOf(folder);
        if workspaceFolder.None? {
          return Pass;
        }
        javaDebug := javaDebug[folder := workspaceFolder.value];
      }
      if !HasBuildFile(d) {
        return Fail(BuildFileMissing);
      }
      PlaceTask(d);
      r := Pass;
    }

    /** The rest of the body once the checks pass: the project item, the
        group item unless collapsed, and the task item under the one or the
        other. */
    method PlaceTask(d: TaskDefinition)
      requires HasBuildFile(d) && d.projectFolder in roots && d.projectFolder in javaDebug
      modifies this`taskItems, this`roots, this`projects, this`groups
      ensures State() == Place(old(State()), d, collapsed)
    {
      var b := d.buildFile.value;
      AddProject(b, d.project, d.projectFolder);
      var parent := ProjectParent(b);
      if !collapsed {
        var g := GroupKey(d.group, b);
        AddGroup(g);
        parent := GroupParent(g);
      }
      AddItem(TaskItem(parent, d, TaskLabel(d.script), TaskDescription(d), javaDebug[d.projectFolder]));
    }

    /** `buildItemsTreeFromTasks`: every task in order, stopping at the first
        one that throws; the result is the top-level items. */
    method BuildItemsTreeFromTasks(
      entries: seq<TaskEntry>, workspaceFolderOf: string -> Option<string>, basename: string -> string)
      returns (r: Result<seq<Element>, string>)
      requires Valid()
      modifies this`taskItems, this`roots, this`rootOrder, this`projects, this`groups, this`javaDebug
      ensures Valid()
      ensures var s := BuildTasks(old(State()), entries, collapsed, workspaceFolderOf, basename);
              State() == s.tree && r == BuildResult(s)
    {
      ghost var t0 := State();
      BuildTasksKeepsTree(t0, entries, collapsed, workspaceFolderOf, basename);
      for i := 0 to |entries|
        invariant var s := BuildTasks(t0, entries[..i], collapsed, workspaceFolderOf, basename);
                  State() == s.tree && s.outcome.Pass?
      {
        assert entries[..i + 1][..i] == entries[..i];
        var step := AddTask(entries[i], workspaceFolderOf, basename);
        if step.Fail? {
          BuildTasksStopsAtFailure(t0, entries, i + 1, collapsed, workspaceFolderOf, basename);
          return Failure(step.error);
        }
      }
      assert entries[..|entries|] == entries;
      r := Success(TopLevel(State()));
    }

    /** `buildTreeItems`: the maps are reset and the tasks loaded; no task at
        all gives the single no-tasks item. */
    method BuildTreeItems(entries: seq<TaskEntry>, workspaceFolderOf: string -> Option<string>, basename: string -> string)
      returns (r: Result<seq<Element>, string>)
      modifies this`taskItems, this`roots, this`rootOrder, this`projects, this`groups, this`javaDebug
      ensures Valid()
      ensures |entries| == 0 ==> State() == EmptyTree && r == Success([NoTasksElement])
      ensures |entries| > 0 ==>
                var s := BuildTasks(EmptyTree, entries, collapsed, workspaceFolderOf, basename);
                State() == s.tree && r == BuildResult(s)
    {
      ResetCachedTreeItems();
      if |entries| == 0 {
        r := Success([NoTasksElement]);
      } else {
        r := BuildItemsTreeFromTasks(entries, workspaceFolderOf, basename);
      }
    }

    /** `getChildren`: with no element the tree is rebuilt from the loaded
        tasks; otherwise the element's children. */
    method GetChildren(
      element: Option<Element>, entries: seq<TaskEntry>,
      workspaceFolderOf: string -> Option<string>, basename: string -> string)
      returns (r: Result<seq<Element>, string>)
      requires Valid()
      modifies this`taskItems, this`roots, this`rootOrder, this`projects, this`groups, this`javaDebug
      ensures Valid()
      ensures element.Some? ==> State() == old(State()) && r == Success(Children(State(), element.value))
      ensures element.None? && |entries| == 0 ==> State() == EmptyTree && r == Success([NoTasksElement])
      ensures element.None? && |entries| > 0 ==>
                var s := BuildTasks(EmptyTree, entries, collapsed, workspaceFolderOf, basename);
                State() == s.tree && r == BuildResult(s)
    {
      if element.None? {
        r := BuildTreeItems(entries, workspaceFolderOf, basename);
      } else {
        r := Success(Children(State(), element.value));
      }
    }
  }
}
