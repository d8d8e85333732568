/** The handlers of the story routes that only decide: they read the story
    table and the request and choose a page to render or a redirect. None
    of them changes the table (they receive it as a value). */
module StoryDecisions {
  import opened StoryData

  /** GET /stories: the stories whose status is `public`. */
  function Index(db: map<Id, Story>): (o: Outcome)
    ensures o.Render? && o.page.IndexPage?
    ensures forall id :: id in o.page.stories <==> id in db && db[id].status == Public
    ensures forall id :: id in o.page.stories ==> o.page.stories[id] == db[id]
  {
    Render(IndexPage(map id | id in db && db[id].status == Public :: db[id]))
  }

  /** GET /stories/my: every story the session user owns, whatever its
      status; without a session user the handler fails. */
  function My(db: map<Id, Story>, caller: Caller): (o: Outcome)
    ensures caller.Guest? <==> o == Failed(NotLoggedIn)
    ensures caller.User? ==> o.Render? && o.page.IndexPage?
    ensures caller.User? ==> forall id :: id in o.page.stories <==> id in db && db[id].owner == caller.id
    ensures caller.User? ==> forall id :: id in o.page.stories ==> o.page.stories[id] == db[id]
  {
    match caller
    case Guest => Failed(NotLoggedIn)
    case User(u) => Render(IndexPage(map id | id in db && db[id].owner == u :: db[id]))
  }

  /** GET /stories/user/:userId as its comment ("list storries from the
      user") and its query (that user's stories with status `public`) say
      it should work. */
  function UserStories(db: map<Id, Story>, user: UserId): (o: Outcome)
    ensures o.Render? && o.page.IndexPage?
    ensures forall id :: id in o.page.stories <==> id in db && db[id].owner == user && db[id].status == Public
    ensures forall id :: id in o.page.stories ==> o.page.stories[id] == db[id]
  {
    Render(IndexPage(map id | id in db && db[id].owner == user && db[id].status == Public :: db[id]))
  }

  /** GET /stories/user/:userId as written: the query result is bound to
      `story` but the view is handed `stories`, an undeclared name, so the
      handler throws before it renders anything. */
  function UserStoriesAsWritten(db: map<Id, Story>, user: UserId): (o: Outcome)
    ensures !o.Render? && !o.Redirect?
  {
    Failed(UndefinedStories)
  }

  /** The discrepancy: the route never renders, whatever the table holds. */
  lemma UserRouteNeverRenders(db: map<Id, Story>, user: UserId)
    ensures UserStories(db, user).Render?
    ensures UserStoriesAsWritten(db, user) != UserStories(db, user)
  {
  }

  /** GET /stories/show/:id: a public story is shown to anyone, any other
      story only to its owner; everybody else is sent back to the list. */
  function Show(db: map<Id, Story>, id: Id, caller: Caller): (o: Outcome)
    ensures id !in db <==> o == Failed(StoryNotFound)
    ensures o.Render? <==> id in db && (db[id].status == Public || caller == User(db[id].owner))
    ensures o.Render? ==> o.page == ShowPage(id, db[id])
    ensures id in db && !o.Render? ==> o == Redirect(StoriesIndex, NoNotice)
  {
    if id !in db then Failed(StoryNotFound)
    else
      var story := db[id];
      if story.status == Public then Render(ShowPage(id, story))
      else if caller.User? then
        if caller.id == story.owner then Render(ShowPage(id, story))
        else Redirect(StoriesIndex, NoNotice)
      else Redirect(StoriesIndex, NoNotice)
  }

  /** GET /stories/edit/:id, behind the login guard: only the owner gets
      the edit form; anyone else gets an error notice and the list. */
  function EditForm(db: map<Id, Story>, id: Id, caller: UserId): (o: Outcome)
    ensures id !in db <==> o == Failed(StoryNotFound)
    ensures o.Render? <==> id in db && db[id].owner == caller
    ensures o.Render? ==> o.page == EditPage(id, db[id])
    ensures id in db && !o.Render? ==> o == Redirect(StoriesIndex, Error(NotAuthorized))
  {
    if id !in db then Failed(StoryNotFound)
    else if db[id].owner != caller then Redirect(StoriesIndex, Error(NotAuthorized))
    else Render(EditPage(id, db[id]))
  }

  /** The validation messages of POST /stories, in the order they are pushed. */
  function Validate(form: StoryForm): (errors: seq<string>)
    ensures TitleMissing in errors <==> !Truthy(form.title)
    ensures BodyMissing in errors <==> !Truthy(form.body)
    ensures forall e :: e in errors ==> e == TitleMissing || e == BodyMissing
    ensures |errors| == (if Truthy(form.title) then 0 else 1) + (if Truthy(form.body) then 0 else 1)
    ensures |errors| == 2 ==> errors[0] == TitleMissing
    ensures errors == [] <==> Truthy(form.title) && Truthy(form.body)
  {
    (if !Truthy(form.title) then [TitleMissing] else [])
    + (if !Truthy(form.body) then [BodyMissing] else [])
  }

  /** The `allowComments` checkbox turned into a boolean, as both POST
      /stories and PUT /stories/:id do it. */
  function AllowCommentsFlag(field: string): (allow: bool)
    ensures allow <==> field != ""
  {
    if Truthy(field) then true else false
  }
}
