/**
 * The tenant-scoped idea and comment repository (`IdeaService`).
 *
 * The relational tables are held in memory: `ideas` and `comments` are the rows
 * in insertion order, `users` maps a user id to its name and email. Timestamps
 * (`created_on`) are integers; only their order matters. Ids come from two
 * counters that play the part of the tables' serial sequences.
 */
module Feedback {
  import opened Wrappers
  import NewestFirst

  /** `app.ErrNotFound`, or any error raised by the database driver. */
  datatype Error = NotFound | DbError

  /** Which step of a write transaction the database fails, if any. */
  datatype Fault = NoFault | BeginFails | InsertFails | CommitFails

  /** A row of `users`, keyed by its id. */
  datatype UserRow = UserRow(name: string, email: string)

  /** A row of `ideas`. */
  datatype IdeaRow = IdeaRow(id: int, number: int, title: string, description: string,
                             tenantId: int, userId: int, createdOn: int)

  /** A row of `comments`. */
  datatype CommentRow = CommentRow(id: int, ideaId: int, content: string, userId: int, createdOn: int)

  /** The author fields a query copies next to an idea or a comment. */
  datatype Author = Author(id: int, name: string, email: string)

  /** `models.Idea` as the repository fills it in. */
  datatype Idea = Idea(id: int, number: int, title: string, description: string,
                       createdOn: int, user: Author)

  /** `models.Comment` as the repository fills it in. */
  datatype Comment = Comment(id: int, content: string, createdOn: int, user: Author)

  function IdeaTime(i: Idea): int { i.createdOn }
  function CommentTime(c: Comment): int { c.createdOn }

  /** One row of the `ideas INNER JOIN users` select list. */
  function JoinIdea(r: IdeaRow, u: UserRow): Idea
  {
    Idea(r.id, r.number, r.title, r.description, r.createdOn, Author(r.userId, u.name, u.email))
  }

  /** One row of the `comments INNER JOIN users` select list. */
  function JoinComment(c: CommentRow, u: UserRow): Comment
  {
    Comment(c.id, c.content, c.createdOn, Author(c.userId, u.name, u.email))
  }

  /** The rows selected by `GetAll`'s query, before ordering: the ideas of
      tenant `t` whose author exists, joined with the author, in table order. */
  function TenantIdeas(rows: seq<IdeaRow>, users: map<int, UserRow>, t: int): seq<Idea>
  {
    if rows == [] then []
    else
      var r := rows[|rows| - 1];
      var rest := TenantIdeas(rows[..|rows| - 1], users, t);
      if r.tenantId == t && r.userId in users then rest + [JoinIdea(r, users[r.userId])] else rest
  }

  /** The comments of idea `ideaId` whose author exists, joined with the author,
      in table order. */
  function IdeaComments(rows: seq<CommentRow>, users: map<int, UserRow>, ideaId: int): seq<Comment>
  {
    if rows == [] then []
    else
      var c := rows[|rows| - 1];
      var rest := IdeaComments(rows[..|rows| - 1], users, ideaId);
      if c.ideaId == ideaId && c.userId in users then rest + [JoinComment(c, users[c.userId])] else rest
  }

  /** Some idea row has id `id` and belongs to tenant `t`. */
  predicate OwnedBy(rows: seq<IdeaRow>, id: int, t: int)
  {
    exists k :: 0 <= k < |rows| && rows[k].id == id && rows[k].tenantId == t
  }

  /** `MAX(number)` over the rows of tenant `t`; None when it has no rows (SQL NULL). */
  function MaxNumber(rows: seq<IdeaRow>, t: int): Option<int>
  {
    if rows == [] then None
    else
      var r := rows[|rows| - 1];
      var m := MaxNumber(rows[..|rows| - 1], t);
      if r.tenantId != t then m
      else if m.None? || m.value < r.number then Some(r.number)
      else m
  }

  /** `COALESCE(MAX(number), 0) + 1` over the rows of tenant `t`. */
  function NextNumber(rows: seq<IdeaRow>, t: int): int
  {
    match MaxNumber(rows, t)
    case None => 1
    case Some(m) => m + 1
  }

  /** The numbers tenant `t` has used. */
  ghost function Numbers(rows: seq<IdeaRow>, t: int): set<int>
  {
    set k | 0 <= k < |rows| && rows[k].tenantId == t :: rows[k].number
  }

  /** No two rows share an id. */
  ghost predicate UniqueIdeaIds(rows: seq<IdeaRow>)
  {
    forall i, j :: 0 <= i < j < |rows| ==> rows[i].id != rows[j].id
  }

  /** No two rows of one tenant share a number. */
  ghost predicate UniqueNumbers(rows: seq<IdeaRow>)
  {
    forall i, j :: 0 <= i < j < |rows| && rows[i].tenantId == rows[j].tenantId ==>
      rows[i].number != rows[j].number
  }

  ghost predicate UniqueCommentIds(rows: seq<CommentRow>)
  {
    forall i, j :: 0 <= i < j < |rows| ==> rows[i].id != rows[j].id
  }

  /** The idea tables and the sequences that hand out their ids. */
  class IdeaStore {
    var ideas: seq<IdeaRow>
    var comments: seq<CommentRow>
    var users: map<int, UserRow>
    var nextIdeaId: int
    var nextCommentId: int

    /** Ids are unique and below their sequence; per-tenant numbers are unique. */
    ghost predicate Valid()
      reads this
    {
      && UniqueIdeaIds(ideas)
      && UniqueNumbers(ideas)
      && UniqueCommentIds(comments)
      && (forall k :: 0 <= k < |ideas| ==> ideas[k].id < nextIdeaId)
      && (forall k :: 0 <= k < |comments| ==> comments[k].id < nextCommentId)
    }

    constructor (users: map<int, UserRow>)
      ensures Valid()
      ensures ideas == [] && comments == [] && this.users == users
    {
      ideas := [];
      comments := [];
      this.users := users;
      nextIdeaId := 1;
      nextCommentId := 1;
    }

    /** All ideas of tenant `t`, each with its author, newest first. */
    method GetAll(t: int) returns (r: seq<Idea>)
      ensures multiset(r) == multiset(TenantIdeas(ideas, users, t))
      ensures NewestFirst.Sorted(r, IdeaTime)
    {
      r := [];
      var i := 0;
      while i < |ideas|
        invariant 0 <= i <= |ideas|
        invariant multiset(r) == multiset(TenantIdeas(ideas[..i], users, t))
        invariant NewestFirst.Sorted(r, IdeaTime)
      {
        var row := ideas[i];
        assert ideas[..i + 1][..i] == ideas[..i];
        if row.tenantId == t && row.userId in users {
          NewestFirst.InsertSorted(JoinIdea(row, users[row.userId]), r, IdeaTime);
          r := NewestFirst.Insert(JoinIdea(row, users[row.userId]), r, IdeaTime);
        }
        i := i + 1;
      }
      assert ideas[..i] == ideas;
    }

    /** The idea of tenant `t` with id `id`, or NotFound. */
    method GetByID(t: int, id: int) returns (r: Result<Idea, Error>)
      ensures r.Failure? <==>
        !exists k :: 0 <= k < |ideas| && ideas[k].tenantId == t && ideas[k].id == id && ideas[k].userId in users
      ensures r.Failure? ==> r.error == NotFound
      ensures r.Success? ==>
        exists k :: 0 <= k < |ideas| && ideas[k].tenantId == t && ideas[k].id == id && ideas[k].userId in users
          && r.value == JoinIdea(ideas[k], users[ideas[k].userId])
    {
      for i := 0 to |ideas|
        invariant forall k :: 0 <= k < i ==>
          !(ideas[k].tenantId == t && ideas[k].id == id && ideas[k].userId in users)
      {
        var row := ideas[i];
        if row.tenantId == t && row.id == id && row.userId in users {
          return Success(JoinIdea(row, users[row.userId]));
        }
      }
      return Failure(NotFound);
    }

    /** The idea of tenant `t` with tenant-local number `number`, or NotFound. */
    method GetByNumber(t: int, number: int) returns (r: Result<Idea, Error>)
      ensures r.Failure? <==>
        !exists k :: 0 <= k < |ideas| && ideas[k].tenantId == t && ideas[k].number == number && ideas[k].userId in users
      ensures r.Failure? ==> r.error == NotFound
      ensures r.Success? ==>
        exists k :: 0 <= k < |ideas| && ideas[k].tenantId == t && ideas[k].number == number && ideas[k].userId in users
          && r.value == JoinIdea(ideas[k], users[ideas[k].userId])
    {
      for i := 0 to |ideas|
        invariant forall k :: 0 <= k < i ==>
          !(ideas[k].tenantId == t && ideas[k].number == number && ideas[k].userId in users)
      {
        var row := ideas[i];
        if row.tenantId == t && row.number == number && row.userId in users {
          return Success(JoinIdea(row, users[row.userId]));
        }
      }
      return Failure(NotFound);
    }

    /** The comments of idea `ideaId`, newest first, provided that idea belongs to tenant `t`. */
    method GetCommentsByIdeaID(t: int, ideaId: int) returns (r: seq<Comment>)
      requires Valid()
      ensures OwnedBy(ideas, ideaId, t) ==> multiset(r) == multiset(IdeaComments(comments, users, ideaId))
      ensures !OwnedBy(ideas, ideaId, t) ==> r == []
      ensures NewestFirst.Sorted(r, CommentTime)
    {
      r := [];
      var owned := false;
      for i := 0 to |ideas|
        invariant owned <==> exists k :: 0 <= k < i && ideas[k].id == ideaId && ideas[k].tenantId == t
      {
        if ideas[i].id == ideaId && ideas[i].tenantId == t {
          owned := true;
        }
      }
      if !owned {
        return;
      }
      var i := 0;
      while i < |comments|
        invariant 0 <= i <= |comments|
        invariant multiset(r) == multiset(IdeaComments(comments[..i], users, ideaId))
        invariant NewestFirst.Sorted(r, CommentTime)
      {
        var c := comments[i];
        assert comments[..i + 1][..i] == comments[..i];
        if c.ideaId == ideaId && c.userId in users {
          NewestFirst.InsertSorted(JoinComment(c, users[c.userId]), r, CommentTime);
          r := NewestFirst.Insert(JoinComment(c, users[c.userId]), r, CommentTime);
        }
        i := i + 1;
      }
      assert comments[..i] == comments;
    }

    /** Inserts a new idea of tenant `t` numbered one past the tenant's highest number.
        Only the new id is read back, so the returned idea keeps a zero number,
        a zero timestamp and an empty author. */
    method Save(t: int, userId: int, title: string, description: string, now: int, fault: Fault)
      returns (idea: Option<Idea>, err: Option<Error>)
      requires Valid()
      modifies this
      ensures Valid()
      ensures comments == old(comments) && users == old(users) && nextCommentId == old(nextCommentId)
      ensures fault == NoFault ==>
        ideas == old(ideas) + [IdeaRow(old(nextIdeaId), NextNumber(old(ideas), t), title, description, t, userId, now)]
      ensures fault != NoFault ==> ideas == old(ideas)
      ensures nextIdeaId == if fault in {NoFault, CommitFails} then old(nextIdeaId) + 1 else old(nextIdeaId)
      ensures idea == if fault in {BeginFails, InsertFails} then None
                      else Some(Idea(old(nextIdeaId), 0, title, description, 0, Author(0, "", "")))
      ensures err == if fault == NoFault then None else Some(DbError)
    {
      if fault == BeginFails {
        return None, Some(DbError);
      }
      var created := Idea(0, 0, title, description, 0, Author(0, "", ""));
      if fault == InsertFails {
        return None, Some(DbError);
      }
      var row := IdeaRow(nextIdeaId, NextNumber(ideas, t), title, description, t, userId, now);
      created := created.(id := nextIdeaId);
      nextIdeaId := nextIdeaId + 1;
      if fault == CommitFails {
        return Some(created), Some(DbError);
      }
      NextNumberIsFresh(ideas, t);
      ideas := ideas + [row];
      return Some(created), None;
    }

    /** Inserts a comment on idea `ideaId` and returns its id; 0 when the insert fails. */
    method AddComment(userId: int, ideaId: int, content: string, now: int, fault: Fault)
      returns (id: int, err: Option<Error>)
      requires Valid()
      modifies this
      ensures Valid()
      ensures ideas == old(ideas) && users == old(users) && nextIdeaId == old(nextIdeaId)
      ensures fault == NoFault ==>
        comments == old(comments) + [CommentRow(old(nextCommentId), ideaId, content, userId, now)]
      ensures fault != NoFault ==> comments == old(comments)
      ensures nextCommentId == if fault in {NoFault, CommitFails} then old(nextCommentId) + 1 else old(nextCommentId)
      ensures id == if fault in {BeginFails, InsertFails} then 0 else old(nextCommentId)
      ensures err == if fault == NoFault then None else Some(DbError)
    {
      if fault == BeginFails || fault == InsertFails {
        return 0, Some(DbError);
      }
      id := nextCommentId;
      nextCommentId := nextCommentId + 1;
      if fault == CommitFails {
        return id, Some(DbError);
      }
      comments := comments + [CommentRow(id, ideaId, content, userId, now)];
      err := None;
    }
  }

  /** MaxNumber is the largest number tenant `t` has used, and None exactly when it has used none. */
  lemma {:induction false} MaxNumberIsMax(rows: seq<IdeaRow>, t: int)
    ensures MaxNumber(rows, t).None? <==> Numbers(rows, t) == {}
    ensures MaxNumber(rows, t).Some? ==>
      MaxNumber(rows, t).value in Numbers(rows, t) &&
      forall n :: n in Numbers(rows, t) ==> n <= MaxNumber(rows, t).value
  {
    if rows != [] {
      var init := rows[..|rows| - 1];
      var r := rows[|rows| - 1];
      MaxNumberIsMax(init, t);
      assert rows == init + [r];
      if r.tenantId == t {
        assert Numbers(rows, t) == Numbers(init, t) + {r.number} by {
          forall n | n in Numbers(rows, t) ensures n in Numbers(init, t) + {r.number} {
            var k :| 0 <= k < |rows| && rows[k].tenantId == t && rows[k].number == n;
            if k < |rows| - 1 { assert init[k] == rows[k]; }
          }
          forall n | n in Numbers(init, t) ensures n in Numbers(rows, t) {
            var k :| 0 <= k < |init| && init[k].tenantId == t && init[k].number == n;
            assert rows[k] == init[k];
          }
          assert rows[|rows| - 1] == r;
        }
      } else {
        assert Numbers(rows, t) == Numbers(init, t) by {
          forall n | n in Numbers(rows, t) ensures n in Numbers(init, t) {
            var k :| 0 <= k < |rows| && rows[k].tenantId == t && rows[k].number == n;
            assert init[k] == rows[k];
          }
          forall n | n in Numbers(init, t) ensures n in Numbers(rows, t) {
            var k :| 0 <= k < |init| && init[k].tenantId == t && init[k].number == n;
            assert rows[k] == init[k];
          }
        }
      }
    }
  }

  /** The number `Save` assigns is 1 for a tenant's first idea and exceeds every
      number the tenant already uses, so it is new within the tenant. */
  lemma NextNumberIsFresh(rows: seq<IdeaRow>, t: int)
    ensures Numbers(rows, t) == {} ==> NextNumber(rows, t) == 1
    ensures forall n :: n in Numbers(rows, t) ==> n < NextNumber(rows, t)
    ensures forall k :: 0 <= k < |rows| && rows[k].tenantId == t ==> rows[k].number != NextNumber(rows, t)
  {
    MaxNumberIsMax(rows, t);
    forall k | 0 <= k < |rows| && rows[k].tenantId == t ensures rows[k].number < NextNumber(rows, t) {
      assert rows[k].number in Numbers(rows, t);
    }
  }

  /** The next number depends only on the numbers the tenant uses: rows of other
      tenants never influence it. */
  lemma NextNumberIsolated(rows1: seq<IdeaRow>, rows2: seq<IdeaRow>, t: int)
    requires Numbers(rows1, t) == Numbers(rows2, t)
    ensures NextNumber(rows1, t) == NextNumber(rows2, t)
  {
    MaxNumberIsMax(rows1, t);
    MaxNumberIsMax(rows2, t);
  }

  /** Sequential saves number a tenant's ideas 1, 2, 3, ... with no gap: if the
      tenant uses exactly 1..n, after one more save it uses exactly 1..n+1. */
  lemma SaveKeepsNumbersDense(rows: seq<IdeaRow>, t: int, n: nat, row: IdeaRow)
    requires forall m :: m in Numbers(rows, t) <==> 1 <= m <= n
    requires row.tenantId == t && row.number == NextNumber(rows, t)
    ensures forall m :: m in Numbers(rows + [row], t) <==> 1 <= m <= n + 1
  {
    MaxNumberIsMax(rows, t);
    if n == 0 {
      assert Numbers(rows, t) == {};
    } else {
      assert n in Numbers(rows, t);
    }
    var s := rows + [row];
    forall m | m in Numbers(s, t) ensures m in Numbers(rows, t) + {row.number} {
      var k :| 0 <= k < |s| && s[k].tenantId == t && s[k].number == m;
      if k < |rows| { assert s[k] == rows[k]; }
    }
    forall m | m in Numbers(rows, t) + {row.number} ensures m in Numbers(s, t) {
      if m == row.number {
        assert s[|rows|] == row;
      } else {
        var k :| 0 <= k < |rows| && rows[k].tenantId == t && rows[k].number == m;
        assert s[k] == rows[k];
      }
    }
  }

  /** Every idea `GetAll(t)` selects comes from a row of tenant `t` with the same
      id, and every row of tenant `t` whose author exists is selected. */
  lemma {:induction false} TenantIdeasExact(rows: seq<IdeaRow>, users: map<int, UserRow>, t: int)
    ensures forall x :: x in TenantIdeas(rows, users, t) ==>
      exists k :: 0 <= k < |rows| && rows[k].tenantId == t && rows[k].userId in users &&
        x == JoinIdea(rows[k], users[rows[k].userId])
    ensures forall k :: 0 <= k < |rows| && rows[k].tenantId == t && rows[k].userId in users ==>
      JoinIdea(rows[k], users[rows[k].userId]) in TenantIdeas(rows, users, t)
  {
    if rows != [] {
      var init := rows[..|rows| - 1];
      TenantIdeasExact(init, users, t);
      forall x | x in TenantIdeas(rows, users, t)
        ensures exists k :: (0 <= k < |rows| && rows[k].tenantId == t && rows[k].userId in users &&
                             x == JoinIdea(rows[k], users[rows[k].userId]))
      {
        if x in TenantIdeas(init, users, t) {
          var k :| 0 <= k < |init| && init[k].tenantId == t && init[k].userId in users &&
            x == JoinIdea(init[k], users[init[k].userId]);
          assert rows[k] == init[k];
        } else {
          assert rows[|rows| - 1].tenantId == t;
        }
      }
      forall k | 0 <= k < |rows| && rows[k].tenantId == t && rows[k].userId in users
        ensures JoinIdea(rows[k], users[rows[k].userId]) in TenantIdeas(rows, users, t)
      {
        if k < |rows| - 1 { assert init[k] == rows[k]; }
      }
    }
  }

  /** Tenant isolation: when idea ids are unique, the ideas listed for two
      different tenants never share an id. */
  lemma TenantIsolation(rows: seq<IdeaRow>, users: map<int, UserRow>, a: int, b: int, x: Idea, y: Idea)
    requires UniqueIdeaIds(rows) && a != b
    requires x in TenantIdeas(rows, users, a) && y in TenantIdeas(rows, users, b)
    ensures x.id != y.id
  {
    TenantIdeasExact(rows, users, a);
    TenantIdeasExact(rows, users, b);
    var i :| 0 <= i < |rows| && rows[i].tenantId == a && rows[i].userId in users && x == JoinIdea(rows[i], users[rows[i].userId]);
    var j :| 0 <= j < |rows| && rows[j].tenantId == b && rows[j].userId in users && y == JoinIdea(rows[j], users[rows[j].userId]);
    assert i != j;
  }

  /** The comments listed for idea `ideaId` are exactly the joined forms of the
      comment rows on that idea whose author exists. */
  lemma {:induction false} IdeaCommentsExact(rows: seq<CommentRow>, users: map<int, UserRow>, ideaId: int)
    ensures forall x :: x in IdeaComments(rows, users, ideaId) ==>
      exists k :: 0 <= k < |rows| && rows[k].ideaId == ideaId && rows[k].userId in users &&
        x == JoinComment(rows[k], users[rows[k].userId])
    ensures forall k :: 0 <= k < |rows| && rows[k].ideaId == ideaId && rows[k].userId in users ==>
      JoinComment(rows[k], users[rows[k].userId]) in IdeaComments(rows, users, ideaId)
  {
    if rows != [] {
      var init := rows[..|rows| - 1];
      IdeaCommentsExact(init, users, ideaId);
      forall x | x in IdeaComments(rows, users, ideaId)
        ensures exists k :: (0 <= k < |rows| && rows[k].ideaId == ideaId && rows[k].userId in users &&
                             x == JoinComment(rows[k], users[rows[k].userId]))
      {
        if x in IdeaComments(init, users, ideaId) {
          var k :| 0 <= k < |init| && init[k].ideaId == ideaId && init[k].userId in users &&
            x == JoinComment(init[k], users[init[k].userId]);
          assert rows[k] == init[k];
        } else {
          assert rows[|rows| - 1].ideaId == ideaId;
        }
      }
      forall k | 0 <= k < |rows| && rows[k].ideaId == ideaId && rows[k].userId in users
        ensures JoinComment(rows[k], users[rows[k].userId]) in IdeaComments(rows, users, ideaId)
      {
        if k < |rows| - 1 { assert init[k] == rows[k]; }
      }
    }
  }
}
