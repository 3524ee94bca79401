/**
 * The tables of the portfolio (users, books, events, blogs, projects,
 * contact messages and the profile) as row types, and their insert shapes:
 * a row without the fields the server assigns. A nullable column is an
 * Option; a `notNull()` column is a plain field.
 */
module Schema {
  import opened Wrappers

  /** The value `new Date()` gives; the clock itself is outside the model. */
  datatype Timestamp = Timestamp(epochMillis: int)

  // users: `username` is declared unique; the insert shape is username and password only.

  datatype User = User(id: int, username: string, password: string)
  datatype InsertUser = InsertUser(username: string, password: string)

  /** The `unique()` constraint declared on `users.username`. */
  ghost predicate UsernamesUnique(rows: seq<User>) {
    forall i, j :: 0 <= i < j < |rows| ==> rows[i].username != rows[j].username
  }

  function UserId(u: User): int { u.id }

  /** `{ ...insertUser, id }`. */
  function NewUser(input: InsertUser, id: int): (u: User)
    ensures u.id == id && u.username == input.username && u.password == input.password
  {
    User(id, input.username, input.password)
  }

  // books

  datatype Book = Book(
    id: int, title: string, author: string, description: string, coverImage: string,
    summaryLink: Option<string>, publishedYear: Option<int>, tags: Option<seq<string>>,
    createdAt: Option<Timestamp>)

  datatype InsertBook = InsertBook(
    title: string, author: string, description: string, coverImage: string,
    summaryLink: Option<string>, publishedYear: Option<int>, tags: Option<seq<string>>)

  /** The insert fields of a row. */
  function BookInsert(b: Book): InsertBook {
    InsertBook(b.title, b.author, b.description, b.coverImage, b.summaryLink, b.publishedYear, b.tags)
  }

  /**
   * `{ ...insertBook, id, createdAt }`: the row carries every insert field
   * unchanged, and its id and timestamp are the server's, since they are
   * written after the spread.
   */
  function NewBook(input: InsertBook, id: int, createdAt: Timestamp): (b: Book)
    ensures b.id == id && b.createdAt == Some(createdAt)
    ensures BookInsert(b) == input
  {
    Book(id, input.title, input.author, input.description, input.coverImage,
         input.summaryLink, input.publishedYear, input.tags, Some(createdAt))
  }

  function BookId(b: Book): int { b.id }
  function BookCreatedAt(b: Book): Option<Timestamp> { b.createdAt }

  // events

  datatype Event = Event(
    id: int, title: string, description: string, date: string, location: string,
    tags: Option<seq<string>>, link: Option<string>, createdAt: Option<Timestamp>)

  datatype InsertEvent = InsertEvent(
    title: string, description: string, date: string, location: string,
    tags: Option<seq<string>>, link: Option<string>)

  function EventInsert(e: Event): InsertEvent {
    InsertEvent(e.title, e.description, e.date, e.location, e.tags, e.link)
  }

  /** `{ ...insertEvent, id, createdAt }`. */
  function NewEvent(input: InsertEvent, id: int, createdAt: Timestamp): (e: Event)
    ensures e.id == id && e.createdAt == Some(createdAt)
    ensures EventInsert(e) == input
  {
    Event(id, input.title, input.description, input.date, input.location, input.tags, input.link,
          Some(createdAt))
  }

  function EventId(e: Event): int { e.id }
  function EventCreatedAt(e: Event): Option<Timestamp> { e.createdAt }

  // blogs: no tags column

  datatype Blog = Blog(
    id: int, title: string, excerpt: string, content: string, coverImage: string,
    category: string, date: string, link: Option<string>, createdAt: Option<Timestamp>)

  datatype InsertBlog = InsertBlog(
    title: string, excerpt: string, content: string, coverImage: string,
    category: string, date: string, link: Option<string>)

  function BlogInsert(b: Blog): InsertBlog {
    InsertBlog(b.title, b.excerpt, b.content, b.coverImage, b.category, b.date, b.link)
  }

  /** `{ ...insertBlog, id, createdAt }`. */
  function NewBlog(input: InsertBlog, id: int, createdAt: Timestamp): (b: Blog)
    ensures b.id == id && b.createdAt == Some(createdAt)
    ensures BlogInsert(b) == input
  {
    Blog(id, input.title, input.excerpt, input.content, input.coverImage, input.category,
         input.date, input.link, Some(createdAt))
  }

  function BlogId(b: Blog): int { b.id }
  function BlogCreatedAt(b: Blog): Option<Timestamp> { b.createdAt }

  // projects: `featured` is nullable with a database default of false

  datatype Project = Project(
    id: int, title: string, description: string, coverImage: string,
    tags: Option<seq<string>>, demoLink: Option<string>, codeLink: Option<string>,
    featured: Option<bool>, createdAt: Option<Timestamp>)

  datatype InsertProject = InsertProject(
    title: string, description: string, coverImage: string,
    tags: Option<seq<string>>, demoLink: Option<string>, codeLink: Option<string>,
    featured: Option<bool>)

  function ProjectInsert(p: Project): InsertProject {
    InsertProject(p.title, p.description, p.coverImage, p.tags, p.demoLink, p.codeLink, p.featured)
  }

  /**
   * `{ ...insertProject, id, createdAt }`. The column default of `featured`
   * belongs to the database: the spread keeps an omitted `featured` omitted.
   */
  function NewProject(input: InsertProject, id: int, createdAt: Timestamp): (p: Project)
    ensures p.id == id && p.createdAt == Some(createdAt)
    ensures ProjectInsert(p) == input
    ensures input.featured.None? ==> p.featured.None?
  {
    Project(id, input.title, input.description, input.coverImage, input.tags, input.demoLink,
            input.codeLink, input.featured, Some(createdAt))
  }

  /** What a database table reads back for `featured`: its default when the insert omitted it. */
  function FeaturedColumn(inserted: Option<bool>): (f: bool)
    ensures inserted.None? ==> !f
    ensures inserted.Some? ==> f == inserted.value
  {
    inserted.GetOr(false)
  }

  function ProjectId(p: Project): int { p.id }
  function ProjectCreatedAt(p: Project): Option<Timestamp> { p.createdAt }

  // contact messages: four required text fields, no length bounds

  datatype ContactMessage = ContactMessage(
    id: int, name: string, email: string, subject: string, message: string,
    createdAt: Option<Timestamp>)

  datatype InsertContact = InsertContact(name: string, email: string, subject: string, message: string)

  function ContactInsert(m: ContactMessage): InsertContact {
    InsertContact(m.name, m.email, m.subject, m.message)
  }

  /** `{ ...insertMessage, id, createdAt }`. */
  function NewContactMessage(input: InsertContact, id: int, createdAt: Timestamp): (m: ContactMessage)
    ensures m.id == id && m.createdAt == Some(createdAt)
    ensures ContactInsert(m) == input
  {
    ContactMessage(id, input.name, input.email, input.subject, input.message, Some(createdAt))
  }

  function ContactId(m: ContactMessage): int { m.id }
  function ContactCreatedAt(m: ContactMessage): Option<Timestamp> { m.createdAt }

  // profile: no createdAt; the insert shape drops only id

  datatype SocialLinks = SocialLinks(
    twitter: Option<string>, github: Option<string>, linkedin: Option<string>, medium: Option<string>)

  datatype Profile = Profile(
    id: int, name: string, title: string, bio: string, avatar: string, email: string,
    location: string, workingHours: Option<string>, socialLinks: SocialLinks)

  datatype InsertProfile = InsertProfile(
    name: string, title: string, bio: string, avatar: string, email: string,
    location: string, workingHours: Option<string>, socialLinks: SocialLinks)

  function ProfileInsert(p: Profile): InsertProfile {
    InsertProfile(p.name, p.title, p.bio, p.avatar, p.email, p.location, p.workingHours, p.socialLinks)
  }

  /** `{ ...insertProfile, id }`. */
  function NewProfile(input: InsertProfile, id: int): (p: Profile)
    ensures p.id == id && ProfileInsert(p) == input
  {
    Profile(id, input.name, input.title, input.bio, input.avatar, input.email, input.location,
            input.workingHours, input.socialLinks)
  }

  // Request bodies and insertContactSchema

  /** A parsed JSON request body. Numbers are integers here. */
  datatype Json =
    | JNull
    | JBool(b: bool)
    | JNumber(n: int)
    | JString(s: string)
    | JArray(items: seq<Json>)
    | JObject(fields: map<string, Json>)

  /** A missing key, or a value of the wrong type (null included). */
  datatype IssueCode = Required | InvalidType

  /** One zod issue: the offending key ("" for the body itself) and why. */
  datatype Issue = Issue(path: string, code: IssueCode)

  /** `z.string()` on key `key`: the string, or the issue it raises. */
  function StringField(fields: map<string, Json>, key: string): (r: Result<string, Issue>)
    ensures r.Ok? <==> key in fields && fields[key].JString?
    ensures r.Ok? ==> r.value == fields[key].s
    ensures r.Err? ==> r.error == Issue(key, if key in fields then InvalidType else Required)
  {
    if key !in fields then Err(Issue(key, Required))
    else match fields[key]
      case JString(s) => Ok(s)
      case _ => Err(Issue(key, InvalidType))
  }

  function IssuesOf(r: Result<string, Issue>): seq<Issue> {
    if r.Err? then [r.error] else []
  }

  /** The keys insertContactSchema checks, in its order. */
  const ContactFields: seq<string> := ["name", "email", "subject", "message"]

  /** Key `key` of `body` holds a string. */
  predicate HasString(body: Json, key: string) {
    body.JObject? && key in body.fields && body.fields[key].JString?
  }

  /** The issues of the four keys, in schema order. */
  function FieldIssues(fields: map<string, Json>): seq<Issue> {
    IssuesOf(StringField(fields, "name")) + IssuesOf(StringField(fields, "email")) +
    IssuesOf(StringField(fields, "subject")) + IssuesOf(StringField(fields, "message"))
  }

  /**
   * `insertContactSchema.parse(body)`: an object whose four keys hold
   * strings (any length; other keys, `id` and `createdAt` among them, are
   * dropped), or the issues found: one for a body that is not an object,
   * else one per failing key.
   */
  function ParseInsertContact(body: Json): (r: Result<InsertContact, seq<Issue>>)
    ensures r.Ok? <==> HasString(body, "name") && HasString(body, "email") &&
                       HasString(body, "subject") && HasString(body, "message")
    ensures r.Ok? ==> r.value == InsertContact(body.fields["name"].s, body.fields["email"].s,
                                                body.fields["subject"].s, body.fields["message"].s)
    ensures r.Err? && !body.JObject? ==> r.error == [Issue("", InvalidType)]
    ensures r.Err? && body.JObject? ==> r.error == FieldIssues(body.fields)
  {
    match body
    case JObject(fields) =>
      var name := StringField(fields, "name");
      var email := StringField(fields, "email");
      var subject := StringField(fields, "subject");
      var message := StringField(fields, "message");
      if name.Ok? && email.Ok? && subject.Ok? && message.Ok? then
        Ok(InsertContact(name.value, email.value, subject.value, message.value))
      else
        Err(FieldIssues(fields))
    case _ => Err([Issue("", InvalidType)])
  }

  /** The issue list of one key: empty when it holds a string, else the key's issue. */
  lemma FieldIssue(fields: map<string, Json>, key: string)
    ensures IssuesOf(StringField(fields, key)) ==
      if HasString(JObject(fields), key) then [] else [Issue(key, if key in fields then InvalidType else Required)]
  {
  }

  /**
   * A rejected object lists exactly its failing keys: every issue names a
   * schema key that does not hold a string, and every such key is named.
   */
  lemma ContactIssuesExact(body: Json)
    requires body.JObject? && ParseInsertContact(body).Err?
    ensures var issues := ParseInsertContact(body).error;
      && (forall i :: 0 <= i < |issues| ==> issues[i].path in ContactFields && !HasString(body, issues[i].path))
      && (forall f :: f in ContactFields && !HasString(body, f) ==>
            exists i :: 0 <= i < |issues| && issues[i].path == f)
  {
    var fields := body.fields;
    var a := IssuesOf(StringField(fields, "name"));
    var b := IssuesOf(StringField(fields, "email"));
    var c := IssuesOf(StringField(fields, "subject"));
    var d := IssuesOf(StringField(fields, "message"));
    FieldIssue(fields, "name");
    FieldIssue(fields, "email");
    FieldIssue(fields, "subject");
    FieldIssue(fields, "message");
    var issues := ParseInsertContact(body).error;
    assert issues == a + b + c + d;
    forall i | 0 <= i < |issues|
      ensures issues[i].path in ContactFields && !HasString(body, issues[i].path)
    {
      if i < |a| { assert issues[i] == a[i]; }
      else if i < |a| + |b| { assert issues[i] == b[i - |a|]; }
      else if i < |a| + |b| + |c| { assert issues[i] == c[i - |a| - |b|]; }
      else { assert issues[i] == d[i - |a| - |b| - |c|]; }
    }
    forall f | f in ContactFields && !HasString(body, f)
      ensures exists i :: 0 <= i < |issues| && issues[i].path == f
    {
      if f == "name" { assert issues[0] == a[0]; }
      else if f == "email" { assert issues[|a|] == b[0]; }
      else if f == "subject" { assert issues[|a| + |b|] == c[0]; }
      else { assert issues[|a| + |b| + |c|] == d[0]; }
    }
  }
}
