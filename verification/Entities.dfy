/** Rows, requests and responses, with the status and role domains. Ids are unsigned 64-bit numbers handed out by
    AUTO_INCREMENT; times are whole seconds. */
module Entities {

  import opened Wrappers
  import opened Text

  // ---- statuses --------------------------------------------------------------------------------

  const TODO := "todo"
  const IN_PROGRESS := "in_progress"
  const DONE := "done"

  predicate IsValidStatus(s: string) { s == TODO || s == IN_PROGRESS || s == DONE }

  const VALID_STATUSES := [TODO, IN_PROGRESS, DONE]

  /** `IsValid`: a search through the list of valid statuses. */
  method IsValid(s: string) returns (ok: bool)
    ensures ok <==> IsValidStatus(s)
  {
    for i := 0 to |VALID_STATUSES|
      invariant s !in VALID_STATUSES[..i]
    {
      if s == VALID_STATUSES[i] {
        return true;
      }
    }
    assert VALID_STATUSES[..|VALID_STATUSES|] == VALID_STATUSES;
    ok := false;
  }

  function LowerChar(c: char): char
  {
    if 'A' <= c <= 'Z' then (c as int + 32) as char else c
  }

  function Lower(s: string): string { seq(|s|, i requires 0 <= i < |s| => LowerChar(s[i])) }

  /** The same letter, or the small form of an ASCII capital. */
  predicate LikeChar(c: char, l: char)
  {
    c == l || ('A' <= c <= 'Z' && 'a' <= l <= 'z' && c as int - 'A' as int == l as int - 'a' as int)
  }

  /** The string is spelled like the word, ASCII capitals standing for small letters. */
  predicate SpelledLike(s: string, word: string)
  {
    |s| == |word| && forall i :: 0 <= i < |s| ==> LikeChar(s[i], word[i])
  }

  /** `toLower`: rewrites the bytes in place; `b` is the slice the source converts the status into. */
  method ToLower(b: array<char>)
    modifies b
    ensures b[..] == Lower(old(b[..]))
    ensures SpelledLike(old(b[..]), b[..])
    ensures forall i :: 0 <= i < b.Length ==> !('A' <= b[i] <= 'Z')
  {
    for i := 0 to b.Length
      invariant forall k :: 0 <= k < i ==> b[k] == LowerChar(old(b[k]))
      invariant forall k :: i <= k < b.Length ==> b[k] == old(b[k])
    {
      var c := b[i];
      if 'A' <= c <= 'Z' {
        b[i] := (c as int + 32) as char;
      }
    }
  }

  function ParseTaskStatus(s: string): Option<string>
  {
    var l := Lower(s);
    if l == TODO then Some(TODO)
    else if l == IN_PROGRESS then Some(IN_PROGRESS)
    else if l == DONE then Some(DONE)
    else None
  }

  lemma LowerLike(s: string, word: string)
    requires forall i :: 0 <= i < |word| ==> !('A' <= word[i] <= 'Z')
    ensures Lower(s) == word <==> SpelledLike(s, word)
  {
    if Lower(s) == word {
      assert forall i :: 0 <= i < |s| ==> Lower(s)[i] == LowerChar(s[i]);
    }
  }

  /** The parser reads a string as a status exactly when it is spelled like it. */
  lemma ParseTaskStatusExact(s: string, status: string)
    ensures ParseTaskStatus(s) == Some(status) <==>
      (status == "todo" || status == "in_progress" || status == "done") && SpelledLike(s, status)
  {
    hide Lower, SpelledLike;
    LowerLike(s, "todo");
    LowerLike(s, "in_progress");
    LowerLike(s, "done");
    assert |TODO| == 4 && |DONE| == 4 && TODO[0] != DONE[0] && |IN_PROGRESS| == 11;
  }

  /** The parser accepts a string exactly when some spelling-insensitive match names a valid status, its result is
      always valid, and the canonical spellings are fixed points. */
  lemma ParseTaskStatusCanonical(s: string)
    ensures ParseTaskStatus(s).Some? <==> IsValidStatus(Lower(s))
    ensures ParseTaskStatus(s).Some? ==> IsValidStatus(ParseTaskStatus(s).value)
    ensures IsValidStatus(s) ==> ParseTaskStatus(s) == Some(s)
  {
    if IsValidStatus(s) {
      assert Lower(s) == s;
    }
  }

  // ---- roles -----------------------------------------------------------------------------------

  const OWNER := "owner"
  const ADMIN := "admin"
  const MEMBER := "member"

  predicate IsValidRole(r: string) { r == OWNER || r == ADMIN || r == MEMBER }

  predicate CanInvite(r: string) { r == OWNER || r == ADMIN }

  // ---- rows ------------------------------------------------------------------------------------

  datatype Team = Team(id: nat, name: string, createdBy: nat, createdAt: int, updatedAt: int)

  datatype TeamMember = TeamMember(userId: nat, teamId: nat, role: string, joinedAt: int)

  datatype Task = Task(
    id: nat, teamId: nat, title: string, description: Option<string>, status: string, assigneeId: Option<nat>,
    createdBy: nat, createdAt: int, updatedAt: int, deletedAt: Option<int>)
  {
    predicate Live() { deletedAt.None? }
  }

  datatype TaskHistory = TaskHistory(
    id: nat, taskId: nat, changedBy: nat, field: string, oldValue: Option<string>, newValue: Option<string>,
    changedAt: int)

  datatype TaskComment = TaskComment(id: nat, taskId: nat, userId: nat, body: string, createdAt: int, updatedAt: int)

  // ---- requests and responses ------------------------------------------------------------------

  datatype TaskFilter = TaskFilter(teamId: nat, status: string, assigneeId: Option<nat>, page: int, limit: int)

  datatype CreateTaskRequest = CreateTaskRequest(
    teamId: nat, title: string, description: Option<string>, status: string, assigneeId: Option<nat>)

  datatype UpdateTaskRequest = UpdateTaskRequest(
    title: Option<string>, description: Option<string>, status: Option<string>, assigneeId: Option<nat>)

  datatype TaskPatch = TaskPatch(
    title: Option<string>, description: Option<string>, status: Option<string>, assigneeId: Option<nat>,
    clearAssignee: bool)
  {
    predicate Empty()
    {
      title.None? && description.None? && status.None? && assigneeId.None? && !clearAssignee
    }
  }

  datatype TaskResponse = TaskResponse(
    id: nat, teamId: nat, title: string, description: Option<string>, status: string, assigneeId: Option<nat>,
    createdBy: nat, createdAt: int, updatedAt: int)

  datatype Pagination = Pagination(page: int, limit: int, total: nat)

  datatype TasksListResponse = TasksListResponse(items: seq<TaskResponse>, meta: Pagination)

  function ToTaskResponse(t: Task): TaskResponse
  {
    TaskResponse(t.id, t.teamId, t.title, t.description, t.status, t.assigneeId, t.createdBy, t.createdAt, t.updatedAt)
  }
}
