/** The writing routes of routes/stories.js as methods of one store object
    that holds the stories collection. The counter `next` stands for the
    database's id generator: every id it hands out is new. */
module StoryStore {
  import opened StoryData
  import opened StoryDecisions
  import opened StoryTable

  class Store {
    var stories: Db
    var next: Id

    ghost predicate Valid()
      reads this
    {
      WellFormed(stories, next)
    }

    constructor ()
      ensures Valid() && stories == map[]
    {
      stories := map[];
      next := 0;
    }

    /** A fresh document id. */
    method FreshId() returns (id: Id)
      requires Valid()
      modifies this`next
      ensures Valid() && id == old(next) && next == id + 1
      ensures id !in stories
    {
      id := next;
      next := next + 1;
    }

    /** POST /stories. An invalid form is shown again with its messages and
        the entered title and body; a valid one becomes a new story owned
        by the session user, and the browser is sent to it. */
    method Create(form: StoryForm, caller: Caller) returns (o: Outcome)
      requires Valid()
      modifies this
      ensures Valid()
      ensures Validate(form) != [] ==>
        o == Render(AddPage(Validate(form), form.title, form.body)) && stories == old(stories)
      ensures Validate(form) == [] && caller.Guest? ==>
        o == Failed(NotLoggedIn) && stories == old(stories)
      ensures Validate(form) == [] && caller.User? ==>
        && o.Redirect? && o.to.ShowStory? && o.notice == Success(IdeaAdded)
        && o.to.id !in old(stories)
        && stories == old(stories)[o.to.id := NewStory(form, caller.id)]
    {
      var errors := Validate(form);
      if errors != [] {
        return Render(AddPage(errors, form.title, form.body));
      }
      if caller.Guest? {
        return Failed(NotLoggedIn);
      }
      var id := FreshId();
      CreateKeeps(stories, id, NewStory(form, caller.id));
      stories := stories[id := NewStory(form, caller.id)];
      o := Redirect(ShowStory(id), Success(IdeaAdded));
    }

    /** PUT /stories/:id. Overwrites title, body, status and allowComments
        for whoever sends the request; owner and comments stay. */
    method Update(id: Id, form: StoryForm) returns (o: Outcome)
      requires Valid()
      modifies this
      ensures Valid() && next == old(next)
      ensures id !in old(stories) ==> o == Failed(StoryNotFound) && stories == old(stories)
      ensures id in old(stories) ==>
        && o == Redirect(Dashboard, Success(IdeaUpdated))
        && stories == old(stories)[id := Edited(old(stories)[id], form)]
    {
      if id !in stories {
        return Failed(StoryNotFound);
      }
      ReplaceKeeps(stories, next, id, Edited(stories[id], form));
      stories := stories[id := Edited(stories[id], form)];
      o := Redirect(Dashboard, Success(IdeaUpdated));
    }

    /** DELETE /stories/:id. Removes the story with that id, if there is
        one, for whoever sends the request. */
    method Delete(id: Id) returns (o: Outcome)
      requires Valid()
      modifies this
      ensures Valid() && next == old(next)
      ensures stories == old(stories) - {id}
      ensures o == Redirect(Dashboard, Success(IdeaRemoved))
    {
      RemoveKeeps(stories, next, id);
      stories := stories - {id};
      o := Redirect(Dashboard, Success(IdeaRemoved));
    }

    /** POST /stories/comment/:id. A non-empty comment by the session user
        goes in front of the story's comments. */
    method AddComment(id: Id, commentBody: Field, caller: Caller) returns (o: Outcome)
      requires Valid()
      modifies this
      ensures Valid()
      ensures caller.Guest? ==> o == Failed(NotLoggedIn) && stories == old(stories)
      ensures caller.User? && commentBody.Absent? ==> o == Failed(FieldMissing) && stories == old(stories)
      ensures caller.User? && commentBody.Sent? && id !in old(stories) ==>
        o == Failed(StoryNotFound) && stories == old(stories)
      ensures caller.User? && id in old(stories) && commentBody == Sent("") ==>
        o == Redirect(ShowStory(id), Success(CommentsEmpty)) && stories == old(stories)
      ensures caller.User? && id in old(stories) && commentBody.Sent? && commentBody.text != "" ==>
        && o == Redirect(ShowStory(id), Success(CommentsAdded))
        && stories.Keys == old(stories).Keys
        && (forall other :: other in stories && other != id ==> stories[other] == old(stories)[other])
        && stories[id] == old(stories)[id].(comments := stories[id].comments)
        && |stories[id].comments| == |old(stories)[id].comments| + 1
        && stories[id].comments[0].body == commentBody.text
        && stories[id].comments[0].user == caller.id
        && stories[id].comments[1..] == old(stories)[id].comments
    {
      if caller.Guest? {
        return Failed(NotLoggedIn);
      }
      if commentBody.Absent? {
        return Failed(FieldMissing);
      }
      if id !in stories {
        return Failed(StoryNotFound);
      }
      if |commentBody.text| < 1 {
        return Redirect(ShowStory(id), Success(CommentsEmpty));
      }
      var cid := FreshId();
      var c := Comment(cid, commentBody.text, caller.id);
      PrependKeeps(stories, cid, id, c);
      stories := stories[id := stories[id].(comments := [c] + stories[id].comments)];
      o := Redirect(ShowStory(id), Success(CommentsAdded));
    }

    /** DELETE /stories/comment/:id. Pulls the comment with that id out of
        every story and sends the browser back where it came from. */
    method DeleteComment(cid: Id) returns (o: Outcome)
      requires Valid()
      modifies this
      ensures Valid() && next == old(next)
      ensures stories == Pull(old(stories), cid)
      ensures o == Redirect(Referer, Success(CommentsRemoved))
    {
      PullKeeps(stories, next, cid);
      stories := Pull(stories, cid);
      o := Redirect(Referer, Success(CommentsRemoved));
    }
  }

  /** The end-to-end run: a logged-in user creates a public story, finds it
      on the public list, comments on it, and anyone then sees the story
      with that comment first. */
  method CreateCommentShow(u: UserId) returns (listed: Outcome, shown: Outcome)
    ensures listed.Render? && listed.page.IndexPage?
    ensures exists id :: id in listed.page.stories && listed.page.stories[id].title == "T"
    ensures shown.Render? && shown.page.ShowPage?
    ensures shown.page.story.title == "T" && |shown.page.story.comments| == 1
    ensures shown.page.story.comments[0].body == "hi" && shown.page.story.comments[0].user == u
  {
    var store := new Store();
    var created := store.Create(StoryForm("T", "B", Public, ""), User(u));
    var id := created.to.id;
    listed := Index(store.stories);
    assert id in listed.page.stories;
    var commented := store.AddComment(id, Sent("hi"), User(u));
    shown := Show(store.stories, id, Guest);
  }
}
