/** The stories collection as a value: a table from story id to story. The
    functions here say what each writing route does to the table; the
    lemmas say what those changes keep. */
module StoryTable {
  import opened StoryData
  import opened StoryDecisions

  type Db = map<Id, Story>

  /** The story POST /stories inserts for a valid form. */
  function NewStory(form: StoryForm, owner: UserId): (s: Story)
    requires Validate(form) == []
    ensures s.title == form.title && s.body == form.body && s.status == form.status
    ensures s.title != "" && s.body != ""
    ensures s.allowComments <==> Truthy(form.allowComments)
    ensures s.owner == owner && s.comments == []
  {
    Story(form.title, form.body, form.status, AllowCommentsFlag(form.allowComments), owner, [])
  }

  /** The story PUT /stories/:id saves: four fields overwritten from the form. */
  function Edited(s: Story, form: StoryForm): (r: Story)
    ensures r.title == form.title && r.body == form.body && r.status == form.status
    ensures r.allowComments <==> Truthy(form.allowComments)
    ensures r.owner == s.owner && r.comments == s.comments
  {
    s.(title := form.title, body := form.body, status := form.status,
       allowComments := AllowCommentsFlag(form.allowComments))
  }

  /** Create and update turn the checkbox into the same boolean. */
  lemma CoercionAgrees(s: Story, form: StoryForm, owner: UserId)
    requires Validate(form) == []
    ensures NewStory(form, owner).allowComments == Edited(s, form).allowComments
    ensures form.allowComments == "" ==> !NewStory(form, owner).allowComments
  {
  }

  /** The comments of `cs` whose id is not `cid`, in their original order:
      what `$pull: {comments: {_id: cid}}` leaves of one story. */
  function WithoutComment(cs: seq<Comment>, cid: Id): (r: seq<Comment>)
    ensures |r| <= |cs|
    ensures forall i :: 0 <= i < |r| ==> r[i].id != cid
  {
    if cs == [] then []
    else (if cs[0].id == cid then [] else [cs[0]]) + WithoutComment(cs[1..], cid)
  }

  /** The pull keeps exactly the comments whose id differs. */
  lemma {:induction false} WithoutCommentMembers(cs: seq<Comment>, cid: Id)
    ensures forall c :: c in WithoutComment(cs, cid) <==> c in cs && c.id != cid
  {
    if cs != [] {
      WithoutCommentMembers(cs[1..], cid);
      assert cs == [cs[0]] + cs[1..];
    }
  }

  /** DELETE /stories/comment/:id on the whole table: every story loses the
      comments with that id and nothing else changes. */
  function Pull(db: Db, cid: Id): (r: Db)
    ensures r.Keys == db.Keys
    ensures forall id :: id in r ==> r[id] == db[id].(comments := r[id].comments)
    ensures forall id :: id in r ==> |r[id].comments| <= |db[id].comments|
    ensures forall id, i :: id in r && 0 <= i < |r[id].comments| ==> r[id].comments[i].id != cid
  {
    map id | id in db :: db[id].(comments := WithoutComment(db[id].comments, cid))
  }

  /** Every story keeps exactly its comments whose id differs. */
  lemma PullMembers(db: Db, cid: Id)
    ensures forall id, c :: id in db ==> (c in Pull(db, cid)[id].comments <==> c in db[id].comments && c.id != cid)
  {
    forall id | id in db
      ensures forall c :: c in Pull(db, cid)[id].comments <==> c in db[id].comments && c.id != cid
    {
      assert Pull(db, cid)[id].comments == WithoutComment(db[id].comments, cid);
      WithoutCommentMembers(db[id].comments, cid);
    }
  }

  /** Comment ids are pairwise distinct within one list. */
  ghost predicate DistinctIds(cs: seq<Comment>)
  {
    forall i, j :: 0 <= i < j < |cs| ==> cs[i].id != cs[j].id
  }

  /** The table's invariant, with `next` the next id to be issued: every
      id issued so far is below `next`, and no two comment positions in
      the whole table carry the same comment id. */
  ghost predicate WellFormed(db: Db, next: Id)
  {
    && (forall id :: id in db ==> id < next)
    && (forall id, i :: id in db && 0 <= i < |db[id].comments| ==> db[id].comments[i].id < next)
    && (forall a, i, b, j ::
          a in db && b in db && 0 <= i < |db[a].comments| && 0 <= j < |db[b].comments| && (a != b || i != j)
          ==> db[a].comments[i].id != db[b].comments[j].id)
  }

  lemma WellFormedDistinct(db: Db, next: Id, id: Id)
    requires WellFormed(db, next) && id in db
    ensures DistinctIds(db[id].comments)
  {
  }

  /** Filtering keeps the relative order: it distributes over concatenation. */
  lemma {:induction false} WithoutCommentAppend(a: seq<Comment>, b: seq<Comment>, cid: Id)
    ensures WithoutComment(a + b, cid) == WithoutComment(a, cid) + WithoutComment(b, cid)
  {
    if a == [] {
      assert a + b == b;
    } else {
      assert (a + b)[0] == a[0];
      assert (a + b)[1..] == a[1..] + b;
      WithoutCommentAppend(a[1..], b, cid);
    }
  }

  /** A list without the id is left exactly as it is. */
  lemma {:induction false} WithoutCommentAbsent(cs: seq<Comment>, cid: Id)
    requires forall i :: 0 <= i < |cs| ==> cs[i].id != cid
    ensures WithoutComment(cs, cid) == cs
  {
    if cs != [] {
      WithoutCommentAbsent(cs[1..], cid);
      assert [cs[0]] + cs[1..] == cs;
    }
  }

  /** Pulling the one comment between two lists that lack its id leaves
      the two lists joined. */
  lemma WithoutCommentSplice(before: seq<Comment>, c: Comment, after: seq<Comment>, cid: Id)
    requires c.id == cid
    requires forall i :: 0 <= i < |before| ==> before[i].id != cid
    requires forall i :: 0 <= i < |after| ==> after[i].id != cid
    ensures WithoutComment(before + [c] + after, cid) == before + after
  {
    assert before + [c] + after == before + ([c] + after);
    calc {
      WithoutComment(before + ([c] + after), cid);
      { WithoutCommentAppend(before, [c] + after, cid); }
      WithoutComment(before, cid) + WithoutComment([c] + after, cid);
      { WithoutCommentAppend([c], after, cid); }
      WithoutComment(before, cid) + (WithoutComment([c], cid) + WithoutComment(after, cid));
      { assert WithoutComment([c], cid) == []; }
      WithoutComment(before, cid) + WithoutComment(after, cid);
      { WithoutCommentAbsent(before, cid); WithoutCommentAbsent(after, cid); }
      before + after;
    }
  }

  /** When `cid` sits at position `k` and nowhere else, the pull removes
      exactly that comment and the others keep their relative order. */
  lemma WithoutCommentAt(cs: seq<Comment>, cid: Id, k: nat)
    requires k < |cs| && cs[k].id == cid
    requires forall i :: 0 <= i < |cs| && i != k ==> cs[i].id != cid
    ensures WithoutComment(cs, cid) == cs[..k] + cs[k + 1..]
  {
    var before, after := cs[..k], cs[k + 1..];
    forall i | 0 <= i < |before| ensures before[i].id != cid {
      assert before[i] == cs[i];
    }
    forall i | 0 <= i < |after| ensures after[i].id != cid {
      assert after[i] == cs[k + 1 + i];
    }
    assert cs == before + [cs[k]] + after;
    WithoutCommentSplice(before, cs[k], after, cid);
  }

  /** Filtering keeps ids distinct. */
  lemma {:induction false} WithoutCommentDistinct(cs: seq<Comment>, cid: Id)
    requires DistinctIds(cs)
    ensures DistinctIds(WithoutComment(cs, cid))
  {
    if cs != [] {
      var t := cs[1..];
      assert DistinctIds(t) by {
        forall i, j | 0 <= i < j < |t| ensures t[i].id != t[j].id {
          assert t[i] == cs[i + 1] && t[j] == cs[j + 1];
        }
      }
      WithoutCommentDistinct(t, cid);
      var rt := WithoutComment(t, cid);
      WithoutCommentMembers(t, cid);
      if cs[0].id != cid {
        var r := [cs[0]] + rt;
        forall i, j | 0 <= i < j < |r| ensures r[i].id != r[j].id {
          assert r[j] == rt[j - 1];
          if i == 0 {
            assert rt[j - 1] in t;
            var m :| 0 <= m < |t| && t[m] == rt[j - 1];
            assert t[m] == cs[m + 1];
          } else {
            assert r[i] == rt[i - 1];
          }
        }
        assert WithoutComment(cs, cid) == r;
      } else {
        assert WithoutComment(cs, cid) == [] + rt;
      }
    }
  }

  /** Inserting a new story under the next id keeps the invariant. */
  lemma CreateKeeps(db: Db, next: Id, s: Story)
    requires WellFormed(db, next) && s.comments == []
    ensures next !in db
    ensures WellFormed(db[next := s], next + 1)
  {
  }

  /** Overwriting a story with the same comments keeps the invariant. */
  lemma ReplaceKeeps(db: Db, next: Id, id: Id, s: Story)
    requires WellFormed(db, next) && id in db && s.comments == db[id].comments
    ensures WellFormed(db[id := s], next)
  {
  }

  /** Removing a story keeps the invariant. */
  lemma RemoveKeeps(db: Db, next: Id, id: Id)
    requires WellFormed(db, next)
    ensures WellFormed(db - {id}, next)
  {
  }

  /** Prepending a comment that carries the next id keeps the invariant. */
  lemma PrependKeeps(db: Db, next: Id, id: Id, c: Comment)
    requires WellFormed(db, next) && id in db && c.id == next
    ensures WellFormed(db[id := db[id].(comments := [c] + db[id].comments)], next + 1)
  {
  }

  /** Pulling a comment id out of every story keeps the invariant. */
  lemma PullKeeps(db: Db, next: Id, cid: Id)
    requires WellFormed(db, next)
    ensures WellFormed(Pull(db, cid), next)
  {
    var r := Pull(db, cid);
    PullMembers(db, cid);
    // Every position of the result holds a comment found at some position of the input.
    forall a, i | a in r && 0 <= i < |r[a].comments|
      ensures exists i' :: 0 <= i' < |db[a].comments| && db[a].comments[i'] == r[a].comments[i]
    {
      assert r[a].comments[i] in db[a].comments;
    }
    forall a, i, b, j |
      a in r && b in r && 0 <= i < |r[a].comments| && 0 <= j < |r[b].comments| && (a != b || i != j)
      ensures r[a].comments[i].id != r[b].comments[j].id
    {
      if a == b {
        WellFormedDistinct(db, next, a);
        WithoutCommentDistinct(db[a].comments, cid);
        assert r[a].comments == WithoutComment(db[a].comments, cid);
      } else {
        var i' :| 0 <= i' < |db[a].comments| && db[a].comments[i'] == r[a].comments[i];
        var j' :| 0 <= j' < |db[b].comments| && db[b].comments[j'] == r[b].comments[j];
      }
    }
  }

  /** A comment id that no story holds leaves the table as it is. */
  lemma PullAbsent(db: Db, cid: Id)
    requires forall id, i :: id in db && 0 <= i < |db[id].comments| ==> db[id].comments[i].id != cid
    ensures Pull(db, cid) == db
  {
    forall id | id in db ensures Pull(db, cid)[id] == db[id] {
      WithoutCommentAbsent(db[id].comments, cid);
    }
  }

  /** In a well-formed table a comment id sits at one place only. */
  lemma OnlyPlace(db: Db, next: Id, a: Id, k: nat, b: Id, j: nat)
    requires WellFormed(db, next) && a in db && k < |db[a].comments|
    requires b in db && j < |db[b].comments| && (b != a || j != k)
    ensures db[b].comments[j].id != db[a].comments[k].id
  {
  }

  /** When a comment id sits at one place only, the pull removes exactly
      that one comment and touches no other story. */
  lemma PullAt(db: Db, cid: Id, a: Id, k: nat)
    requires a in db && k < |db[a].comments| && db[a].comments[k].id == cid
    requires forall b, j :: b in db && 0 <= j < |db[b].comments| && (b != a || j != k) ==> db[b].comments[j].id != cid
    ensures Pull(db, cid) == db[a := db[a].(comments := db[a].comments[..k] + db[a].comments[k + 1..])]
  {
    var r := Pull(db, cid);
    var expected := db[a := db[a].(comments := db[a].comments[..k] + db[a].comments[k + 1..])];
    forall b | b in db ensures r[b] == expected[b] {
      if b == a {
        WithoutCommentAt(db[a].comments, cid, k);
      } else {
        WithoutCommentAbsent(db[b].comments, cid);
      }
    }
    assert r.Keys == expected.Keys;
  }

  /** In a well-formed table, then, deleting a comment that exists removes
      exactly that comment from exactly one story. */
  lemma PullRemovesOne(db: Db, next: Id, cid: Id, a: Id, k: nat)
    requires WellFormed(db, next) && a in db && k < |db[a].comments| && db[a].comments[k].id == cid
    ensures Pull(db, cid) == db[a := db[a].(comments := db[a].comments[..k] + db[a].comments[k + 1..])]
  {
    forall b, j | b in db && 0 <= j < |db[b].comments| && (b != a || j != k)
      ensures db[b].comments[j].id != cid
    {
      OnlyPlace(db, next, a, k, b, j);
    }
    PullAt(db, cid, a, k);
  }

  /** After a valid create, "my stories" of the creator gains exactly the
      new story and loses none. */
  lemma MyAfterCreate(db: Db, id: Id, form: StoryForm, u: UserId)
    requires id !in db && Validate(form) == []
    ensures My(db[id := NewStory(form, u)], User(u)).page.stories
         == My(db, User(u)).page.stories[id := NewStory(form, u)]
  {
  }
}
