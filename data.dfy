/** The entities the story routes work on and the outcomes a handler can
    produce. Mongo ObjectIds are natural numbers; the response is an
    opaque outcome value (which view is rendered with what, or where the
    browser is redirected and which one-time notice goes with it). */
module StoryData {

  /** A document id (stories, embedded comments and users alike). */
  type Id = nat
  type UserId = nat

  /** The only status value the routes compare against. */
  const Public: string := "public"

  /** Texts of the one-time notices and validation messages. */
  const TitleMissing: string := "Please Tittle"
  const BodyMissing: string := "Your Story is empty ;("
  const NotAuthorized: string := "Not Authorized!"
  const IdeaAdded: string := "Idea Added!"
  const IdeaUpdated: string := "Idea updated!"
  const IdeaRemoved: string := "Idea Removed!"
  const CommentsEmpty: string := "Comments Empty!"
  const CommentsAdded: string := "Comments Added!"
  const CommentsRemoved: string := "Comments Removed!"

  /** A comment embedded in a story: its own id, its text, its author. */
  datatype Comment = Comment(id: Id, body: string, user: UserId)

  /** A story document. `status` is whatever string the form sent. */
  datatype Story = Story(
    title: string,
    body: string,
    status: string,
    allowComments: bool,
    owner: UserId,
    comments: seq<Comment>)

  /** The user attached to the session, if any. */
  datatype Caller = Guest | User(id: UserId)

  /** The fields of the add and edit forms. A field the browser does not
      send is the empty string here: both are falsy, and these routes only
      test the fields for truthiness or store them. */
  datatype StoryForm = StoryForm(title: string, body: string, status: string, allowComments: string)

  /** A form field that may be missing from the request body, where the
      difference matters: reading `.length` of a missing field throws. */
  datatype Field = Absent | Sent(text: string)

  /** A one-time notice stored for the next page (`success_msg` or `error_msg`). */
  datatype Notice = NoNotice | Success(text: string) | Error(text: string)

  /** Redirect targets: `/stories`, `/stories/show/<id>`, `/dashboard`, and
      the page the request came from. */
  datatype Target = StoriesIndex | ShowStory(id: Id) | Dashboard | Referer

  /** The rendered views with the data handed to them: `stories/index`,
      `stories/show`, `stories/edit` and `stories/add`. */
  datatype Page =
    | IndexPage(stories: map<Id, Story>)
    | ShowPage(id: Id, story: Story)
    | EditPage(id: Id, story: Story)
    | AddPage(errors: seq<string>, title: string, body: string)

  /** Why a handler threw instead of rendering or redirecting: it
      dereferenced a missing story, a missing session user, a missing form
      field, or a variable that does not exist. What the client then
      receives is not modelled. */
  datatype Failure = StoryNotFound | NotLoggedIn | FieldMissing | UndefinedStories

  datatype Outcome =
    | Render(page: Page)
    | Redirect(to: Target, notice: Notice)
    | Failed(why: Failure)

  /** JavaScript truthiness of a form string. */
  predicate Truthy(field: string)
  {
    field != ""
  }
}
