/**
 * The Task entity and its two child collections, comments and task
 * assignments. A child points back at its task; the task's helper methods keep
 * the list and the back-references in step. Entities compare by identifier:
 * two distinct objects are equal only when both carry the same non-null id.
 */
module Tasks {
  import opened Common

  /** `Task.hashCode()`: the hash of the Task class, the same for every task. */
  const TaskClassHash: int := 0x5461736b

  /** The position of the first element of `s` that satisfies `p`, if any. */
  function FirstIndex<T>(s: seq<T>, p: T -> bool): (r: Option<nat>)
    ensures r.Some? ==> r.value < |s| && p(s[r.value]) && forall k :: 0 <= k < r.value ==> !p(s[k])
    ensures r.None? ==> forall k :: 0 <= k < |s| ==> !p(s[k])
  {
    if s == [] then None
    else if p(s[0]) then Some(0)
    else match FirstIndex(s[1..], p)
      case None => None
      case Some(j) => Some(j + 1)
  }

  /**
   * `List.remove(Object)`: the list without its first element that `p`
   * accepts, or the list itself when there is none.
   */
  function RemoveFirst<T>(s: seq<T>, p: T -> bool): seq<T> {
    match FirstIndex(s, p)
    case None => s
    case Some(k) => s[..k] + s[k + 1..]
  }

  /**
   * `RemoveFirst` removes exactly one element, the first one `p` accepts, and
   * keeps the others in order; when `p` accepts nothing it changes nothing.
   */
  lemma RemoveFirstRemovesOne<T>(s: seq<T>, p: T -> bool)
    ensures FirstIndex(s, p).None? ==> RemoveFirst(s, p) == s
    ensures FirstIndex(s, p).Some? ==>
      var k := FirstIndex(s, p).value;
      |RemoveFirst(s, p)| == |s| - 1 &&
      multiset(RemoveFirst(s, p)) + multiset{s[k]} == multiset(s) &&
      (forall j :: 0 <= j < k ==> RemoveFirst(s, p)[j] == s[j]) &&
      (forall j :: k <= j < |s| - 1 ==> RemoveFirst(s, p)[j] == s[j + 1])
  {
    if FirstIndex(s, p).Some? {
      RemoveAt(s, FirstIndex(s, p).value);
    }
  }

  /** Cutting out position `k` loses exactly `s[k]` and shifts the tail down by one. */
  lemma RemoveAt<T>(s: seq<T>, k: nat)
    requires k < |s|
    ensures |s[..k] + s[k + 1..]| == |s| - 1
    ensures multiset(s[..k] + s[k + 1..]) + multiset{s[k]} == multiset(s)
    ensures forall j :: 0 <= j < k ==> (s[..k] + s[k + 1..])[j] == s[j]
    ensures forall j :: k < j < |s| ==> (s[..k] + s[k + 1..])[j - 1] == s[j]
  {
    assert s == s[..k] + [s[k]] + s[k + 1..];
    calc {
      multiset(s);
      multiset(s[..k]) + multiset{s[k]} + multiset(s[k + 1..]);
      multiset(s[..k] + s[k + 1..]) + multiset{s[k]};
    }
  }

  /** The value of every field of a task at one moment. */
  datatype TaskState = TaskState(
    id: Option<Id>,
    title: string,
    description: string,
    createTime: Instant,
    updateTime: Instant,
    deadline: Option<Instant>,
    archived: bool,
    archivedDate: Option<Instant>,
    workGroup: Option<Id>,
    priority: Option<Id>,
    status: Option<Id>,
    parentProject: Option<Id>,
    comments: seq<Comment>,
    taskAssignments: seq<TaskAssignment>)

  /** A comment on a task. */
  class Comment {
    const id: Option<Id>
    const content: string
    const author: Login
    const createTime: Instant
    /** The back-reference to the commented task. */
    var task: Task?

    constructor (id: Option<Id>, content: string, author: Login, createTime: Instant)
      ensures this.id == id && this.content == content && this.author == author
      ensures this.createTime == createTime && task == null
    {
      this.id := id;
      this.content := content;
      this.author := author;
      this.createTime := createTime;
      task := null;
    }

    /** `Comment.equals`: the same object, or both ids present and equal. */
    predicate Equals(o: Comment?) {
      this == o || (o != null && id.Some? && id == o.id)
    }
  }

  /** The assignment of a user to a task. */
  class TaskAssignment {
    const id: Option<Id>
    const user: Login
    const assignedAt: Instant
    /** The back-reference to the assigned task. */
    var task: Task?

    constructor (id: Option<Id>, user: Login, assignedAt: Instant)
      ensures this.id == id && this.user == user && this.assignedAt == assignedAt && task == null
    {
      this.id := id;
      this.user := user;
      this.assignedAt := assignedAt;
      task := null;
    }

    /** `TaskAssignment.equals`: the same object, or both ids present and equal. */
    predicate Equals(o: TaskAssignment?) {
      this == o || (o != null && id.Some? && id == o.id)
    }
  }

  class Task {
    var id: Option<Id>
    var title: string
    var description: string
    var createTime: Instant
    var updateTime: Instant
    var deadline: Option<Instant>
    var archived: bool
    var archivedDate: Option<Instant>
    var workGroup: Option<Id>
    var priority: Option<Id>
    var status: Option<Id>
    var parentProject: Option<Id>
    var comments: seq<Comment>
    var taskAssignments: seq<TaskAssignment>

    /**
     * `new Task()`: no id, no references, empty child lists, not archived,
     * created now.
     */
    constructor (now: Instant)
      ensures id.None? && !archived && archivedDate.None?
      ensures comments == [] && taskAssignments == []
      ensures createTime == now && deadline.None?
      ensures workGroup.None? && priority.None? && status.None? && parentProject.None?
    {
      id := None;
      title := "";
      description := "";
      createTime := now;
      updateTime := now;
      deadline := None;
      archived := false;
      archivedDate := None;
      workGroup := None;
      priority := None;
      status := None;
      parentProject := None;
      comments := [];
      taskAssignments := [];
    }

    /** `addComment`: appends `c` and points it at this task. */
    method AddComment(c: Comment)
      modifies this, c
      ensures State() == old(State()).(comments := old(comments) + [c]) && c.task == this
    {
      comments := comments + [c];
      c.task := this;
    }

    /**
     * `removeComment`: drops the first comment equal to `c` from the list and
     * clears `c`'s back-reference.
     */
    method RemoveComment(c: Comment)
      modifies this, c
      ensures State() == old(State()).(comments := RemoveFirst(old(comments), x => c.Equals(x)))
      ensures c.task == null
    {
      comments := RemoveFirst(comments, x => c.Equals(x));
      c.task := null;
    }

    /**
     * `setComments`: detaches every current comment, attaches every new one,
     * then replaces the list. A comment in both lists ends up attached.
     */
    method SetComments(newComments: seq<Comment>)
      modifies this, comments, newComments
      ensures State() == old(State()).(comments := newComments)
      ensures forall c :: c in newComments ==> c.task == this
      ensures forall c :: c in old(comments) && c !in newComments ==> c.task == null
    {
      var current := comments;
      var i := 0;
      while i < |current|
        invariant 0 <= i <= |current|
        invariant forall k :: 0 <= k < i ==> current[k].task == null
        modifies current
      {
        current[i].task := null;
        i := i + 1;
      }
      var j := 0;
      while j < |newComments|
        invariant 0 <= j <= |newComments|
        invariant forall k :: 0 <= k < j ==> newComments[k].task == this
        invariant forall c :: c in current && c !in newComments[..j] ==> c.task == null
        modifies newComments
      {
        newComments[j].task := this;
        j := j + 1;
      }
      comments := newComments;
    }

    /** `addTaskAssignment`: appends `a` and points it at this task. */
    method AddTaskAssignment(a: TaskAssignment)
      modifies this, a
      ensures State() == old(State()).(taskAssignments := old(taskAssignments) + [a]) && a.task == this
    {
      taskAssignments := taskAssignments + [a];
      a.task := this;
    }

    /**
     * `removeTaskAssignment`: drops the first assignment equal to `a` from the
     * list and clears `a`'s back-reference.
     */
    method RemoveTaskAssignment(a: TaskAssignment)
      modifies this, a
      ensures State() == old(State()).(taskAssignments := RemoveFirst(old(taskAssignments), x => a.Equals(x)))
      ensures a.task == null
    {
      taskAssignments := RemoveFirst(taskAssignments, x => a.Equals(x));
      a.task := null;
    }

    /**
     * `setTaskAssignments`: detaches every current assignment, attaches every
     * new one, then replaces the list.
     */
    method SetTaskAssignments(newAssignments: seq<TaskAssignment>)
      modifies this, taskAssignments, newAssignments
      ensures State() == old(State()).(taskAssignments := newAssignments)
      ensures forall a :: a in newAssignments ==> a.task == this
      ensures forall a :: a in old(taskAssignments) && a !in newAssignments ==> a.task == null
    {
      var current := taskAssignments;
      var i := 0;
      while i < |current|
        invariant 0 <= i <= |current|
        invariant forall k :: 0 <= k < i ==> current[k].task == null
        modifies current
      {
        current[i].task := null;
        i := i + 1;
      }
      var j := 0;
      while j < |newAssignments|
        invariant 0 <= j <= |newAssignments|
        invariant forall k :: 0 <= k < j ==> newAssignments[k].task == this
        invariant forall a :: a in current && a !in newAssignments[..j] ==> a.task == null
        modifies newAssignments
      {
        newAssignments[j].task := this;
        j := j + 1;
      }
      taskAssignments := newAssignments;
    }

    /** `equals`: the same object, or both ids present and equal. */
    predicate Equals(o: Task?)
      reads this, o
    {
      this == o || (o != null && id.Some? && id == o.id)
    }

    /** The current value of every field. */
    function State(): TaskState
      reads this
    {
      TaskState(id, title, description, createTime, updateTime, deadline, archived, archivedDate,
                workGroup, priority, status, parentProject, comments, taskAssignments)
    }

    /** `hashCode`: the same value for every task. */
    function HashCode(): int {
      TaskClassHash
    }
  }

  /**
   * The `equals`/`hashCode` contract of Java: equal tasks have equal hash
   * codes. It holds because `hashCode` is the class's hash, the same for every
   * task, so this is a check of that contract rather than a deeper property.
   */
  lemma EqualTasksHashAlike(a: Task, b: Task)
    requires a.Equals(b)
    ensures a.HashCode() == b.HashCode()
  {
  }

  /** Task equality is an equivalence relation. */
  lemma TaskEqualityIsEquivalence(a: Task, b: Task, c: Task)
    ensures a.Equals(a)
    ensures a.Equals(b) <==> b.Equals(a)
    ensures a.Equals(b) && b.Equals(c) ==> a.Equals(c)
  {
  }

  /**
   * A task without id equals only itself; two distinct tasks with ids are
   * equal exactly when the ids agree.
   */
  lemma TaskEqualityById(a: Task, b: Task)
    ensures a.id.None? && a != b ==> !a.Equals(b) && !b.Equals(a)
    ensures a.id.Some? && b.id.Some? ==> (a.Equals(b) <==> a.id == b.id)
  {
  }
}
