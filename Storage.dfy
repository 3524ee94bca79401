/**
 * The in-memory content store: seven `Map<number, Row>` tables, one
 * auto-increment counter per table and a fixed key for the single profile.
 * Creating a row takes the next id, stamps the row and stores it; reading
 * is a map lookup (undefined for a missing key); listing yields the rows in
 * insertion order.
 */
module Storage {
  import opened Wrappers
  import opened Schema
  import opened OrderedMaps
  import JsBuiltins

  /** The whole state of a store, field by field. */
  datatype StoreState = StoreState(
    users: OrderedMap<User>, currentId: int,
    books: OrderedMap<Book>, bookId: int,
    events: OrderedMap<Event>, eventId: int,
    blogs: OrderedMap<Blog>, blogId: int,
    projects: OrderedMap<Project>, projectId: int,
    contacts: OrderedMap<ContactMessage>, contactId: int,
    profiles: OrderedMap<Profile>, profileId: int)

  /** The profile table holds exactly one row, under the fixed key, carrying that key as its id. */
  ghost predicate ProfileTableOk(t: OrderedMap<Profile>, key: int) {
    && t.Valid()
    && t.keys == [key]
    && key in t.entries
    && t.entries[key].id == key
  }

  /** A table that keeps TableOk and whose every row carries its creation time. */
  ghost predicate StampedTable<V>(t: OrderedMap<V>, idOf: V -> int, stampOf: V -> Option<Timestamp>, next: int) {
    && TableOk(t, idOf, next)
    && (forall k :: k in t.entries ==> stampOf(t.entries[k]).Some?)
  }

  /**
   * The store invariant: every auto-increment table keeps TableOk with its
   * own counter, every stamped row has its `createdAt`, and the profile
   * table holds one row, under key 1.
   */
  ghost predicate Inv(s: StoreState) {
    && UserTable(s.users, s.currentId)
    && StampedTable(s.books, BookId, BookCreatedAt, s.bookId)
    && StampedTable(s.events, EventId, EventCreatedAt, s.eventId)
    && StampedTable(s.blogs, BlogId, BlogCreatedAt, s.blogId)
    && StampedTable(s.projects, ProjectId, ProjectCreatedAt, s.projectId)
    && StampedTable(s.contacts, ContactId, ContactCreatedAt, s.contactId)
    && s.profileId == 1
    && ProfileTableOk(s.profiles, s.profileId)
  }

  /** The store invariant, from its table-by-table parts. */
  lemma InvIntro(s: StoreState)
    requires UserTable(s.users, s.currentId)
    requires StampedTable(s.books, BookId, BookCreatedAt, s.bookId)
    requires StampedTable(s.events, EventId, EventCreatedAt, s.eventId)
    requires StampedTable(s.blogs, BlogId, BlogCreatedAt, s.blogId)
    requires StampedTable(s.projects, ProjectId, ProjectCreatedAt, s.projectId)
    requires StampedTable(s.contacts, ContactId, ContactCreatedAt, s.contactId)
    requires s.profileId == 1
    requires ProfileTableOk(s.profiles, s.profileId)
    ensures Inv(s)
  {
  }

  // Replacing one table by another that keeps its part of the invariant keeps the store invariant.

  lemma InvUsers(s: StoreState, t: OrderedMap<User>, next: int)
    requires Inv(s) && UserTable(t, next)
    ensures Inv(s.(users := t, currentId := next))
  {
  }

  lemma InvBooks(s: StoreState, t: OrderedMap<Book>, next: int)
    requires Inv(s) && StampedTable(t, BookId, BookCreatedAt, next)
    ensures Inv(s.(books := t, bookId := next))
  {
  }

  lemma InvEvents(s: StoreState, t: OrderedMap<Event>, next: int)
    requires Inv(s) && StampedTable(t, EventId, EventCreatedAt, next)
    ensures Inv(s.(events := t, eventId := next))
  {
  }

  lemma InvBlogs(s: StoreState, t: OrderedMap<Blog>, next: int)
    requires Inv(s) && StampedTable(t, BlogId, BlogCreatedAt, next)
    ensures Inv(s.(blogs := t, blogId := next))
  {
  }

  lemma InvProjects(s: StoreState, t: OrderedMap<Project>, next: int)
    requires Inv(s) && StampedTable(t, ProjectId, ProjectCreatedAt, next)
    ensures Inv(s.(projects := t, projectId := next))
  {
  }

  lemma InvContacts(s: StoreState, t: OrderedMap<ContactMessage>, next: int)
    requires Inv(s) && StampedTable(t, ContactId, ContactCreatedAt, next)
    ensures Inv(s.(contacts := t, contactId := next))
  {
  }

  lemma InvProfiles(s: StoreState, t: OrderedMap<Profile>)
    requires Inv(s) && ProfileTableOk(t, s.profileId)
    ensures Inv(s.(profiles := t))
  {
  }

  lemma TakeSnoc<T>(s: seq<T>, i: int)
    requires 0 <= i < |s|
    ensures s[..i] + [s[i]] == s[..i + 1]
  {
  }

  /** The user table: numbered by `currentId`, with no creation times. */
  ghost predicate UserTable(t: OrderedMap<User>, next: int) {
    TableOk(t, UserId, next)
  }

  /** Appending a user under the next id keeps the user table numbered. */
  lemma UserInsert(t: OrderedMap<User>, next: int, row: User)
    requires UserTable(t, next) && row.id == next
    ensures next !in t.entries
    ensures UserTable(t.Set(next, row), next + 1)
  {
    TableInsert(t, UserId, next, row);
  }

  /** Appending a stamped row under the next id keeps the table stamped and numbered. */
  lemma StampedInsert<V>(t: OrderedMap<V>, idOf: V -> int, stampOf: V -> Option<Timestamp>, next: int, row: V)
    requires StampedTable(t, idOf, stampOf, next)
    requires idOf(row) == next && stampOf(row).Some?
    ensures next !in t.entries
    ensures StampedTable(t.Set(next, row), idOf, stampOf, next + 1)
    ensures t.Set(next, row).Values() == t.Values() + [row]
  {
    TableInsert(t, idOf, next, row);
  }

  /** The test `user.username === username`. */
  function NamedBy(username: string): User -> bool {
    (u: User) => u.username == username
  }

  /** Every stored user sits at some position of the listing. */
  lemma UserPosition(t: OrderedMap<User>, next: int, k: int) returns (j: int)
    requires TableOk(t, UserId, next) && k in t.entries
    ensures 0 <= j < |t.Values()| && t.Values()[j] == t.entries[k] && t.Values()[j].id == k
  {
    var vs := t.Values();
    TableValues(t, UserId, next);
    assert t.entries[k] in vs;
    j :| 0 <= j < |vs| && vs[j] == t.entries[k];
    assert UserId(vs[j]) in t.entries && t.entries[UserId(vs[j])] == vs[j];
  }

  /** A search that finds nothing means no stored user has the name. */
  lemma FindNoneNoUser(t: OrderedMap<User>, next: int, username: string)
    requires TableOk(t, UserId, next)
    requires JsBuiltins.Find(t.Values(), NamedBy(username)).None?
    ensures forall k :: k in t.entries ==> t.entries[k].username != username
  {
    forall k | k in t.entries ensures t.entries[k].username != username {
      var j := UserPosition(t, next, k);
      assert !NamedBy(username)(t.Values()[j]);
    }
  }

  /** When no stored user has the name, the search finds nothing. */
  lemma NoUserFindNone(t: OrderedMap<User>, next: int, username: string)
    requires TableOk(t, UserId, next)
    requires forall k :: k in t.entries ==> t.entries[k].username != username
    ensures JsBuiltins.Find(t.Values(), NamedBy(username)).None?
  {
    var vs := t.Values();
    forall i | 0 <= i < |vs| ensures !NamedBy(username)(vs[i]) {
      TableAt(t, UserId, next, i);
    }
  }

  /** A search that finds a user finds one stored under its own id, with the name. */
  lemma FindSomeStored(t: OrderedMap<User>, next: int, username: string) returns (i: int)
    requires TableOk(t, UserId, next)
    requires JsBuiltins.Find(t.Values(), NamedBy(username)).Some?
    ensures 0 <= i < |t.Values()| && t.Values()[i] == JsBuiltins.Find(t.Values(), NamedBy(username)).value
    ensures forall j :: 0 <= j < i ==> t.Values()[j].username != username
    ensures var u := t.Values()[i];
      && u.username == username
      && u.id in t.entries && t.entries[u.id] == u
  {
    var vs := t.Values();
    var p := NamedBy(username);
    i := JsBuiltins.FindIndex(vs, p);
    forall j | 0 <= j < i ensures vs[j].username != username {
      assert !p(vs[j]);
    }
    TableAt(t, UserId, next, i);
  }

  /** A search that finds a user finds a stored one with the name and the smallest such id. */
  lemma FindSomeFirst(t: OrderedMap<User>, next: int, username: string)
    requires TableOk(t, UserId, next)
    requires JsBuiltins.Find(t.Values(), NamedBy(username)).Some?
    ensures var u := JsBuiltins.Find(t.Values(), NamedBy(username)).value;
      && u.username == username
      && u.id in t.entries && t.entries[u.id] == u
      && forall k :: k in t.entries && k < u.id ==> t.entries[k].username != username
  {
    var i := FindSomeStored(t, next, username);
    var u := t.Values()[i];
    forall k | k in t.entries && k < u.id ensures t.entries[k].username != username {
      var j := UserPosition(t, next, k);
      TableOrdered(t, UserId, next, j, i);
    }
  }

  /**
   * Searching a user table in insertion order finds a row exactly when some
   * stored user has the name, and then finds the one with the smallest id.
   */
  lemma FirstWithUsername(t: OrderedMap<User>, next: int, username: string)
    requires TableOk(t, UserId, next)
    ensures JsBuiltins.Find(t.Values(), NamedBy(username)).None? <==>
      forall k :: k in t.entries ==> t.entries[k].username != username
    ensures JsBuiltins.Find(t.Values(), NamedBy(username)).Some? ==>
      var u := JsBuiltins.Find(t.Values(), NamedBy(username)).value;
      && u.username == username
      && u.id in t.entries && t.entries[u.id] == u
      && forall k :: k in t.entries && k < u.id ==> t.entries[k].username != username
  {
    if JsBuiltins.Find(t.Values(), NamedBy(username)).None? {
      FindNoneNoUser(t, next, username);
    } else {
      FindSomeFirst(t, next, username);
      var u := JsBuiltins.Find(t.Values(), NamedBy(username)).value;
      assert !(forall k :: k in t.entries ==> t.entries[k].username != username) by {
        assert t.entries[u.id].username == username;
      }
    }
  }

  lemma FirstWithUsernameIf(t: OrderedMap<User>, next: int, username: string)
    ensures TableOk(t, UserId, next) ==>
      && (JsBuiltins.Find(t.Values(), NamedBy(username)).None? <==>
            forall k :: k in t.entries ==> t.entries[k].username != username)
      && (JsBuiltins.Find(t.Values(), NamedBy(username)).Some? ==>
            var u := JsBuiltins.Find(t.Values(), NamedBy(username)).value;
            && u.username == username
            && u.id in t.entries && t.entries[u.id] == u
            && forall k :: k in t.entries && k < u.id ==> t.entries[k].username != username)
  {
    if TableOk(t, UserId, next) {
      FirstWithUsername(t, next, username);
    }
  }

  /** Storing a profile under the fixed key replaces the one row. */
  lemma ProfileUpsert(t: OrderedMap<Profile>, key: int, p: Profile)
    requires ProfileTableOk(t, key)
    requires p.id == key
    ensures ProfileTableOk(t.Set(key, p), key)
    ensures t.Set(key, p).entries == map[key := p]
  {
    var u := t.Set(key, p);
    assert t.entries.Keys == {key} by {
      forall k ensures k in t.entries <==> k == key {
        assert k in t.keys <==> k == key;
      }
    }
    assert u.entries == map[key := p];
  }

  /**
   * TableValues for a table that may or may not keep its invariant, so that
   * functions without a precondition can use it.
   */
  lemma TableValuesIf<V>(t: OrderedMap<V>, idOf: V -> int, next: int)
    ensures TableOk(t, idOf, next) ==>
      && |t.Values()| == |t.entries|
      && (forall i :: 0 <= i < |t.Values()| ==>
            idOf(t.Values()[i]) in t.entries && t.entries[idOf(t.Values()[i])] == t.Values()[i])
      && (forall k :: k in t.entries ==> t.entries[k] in t.Values())
      && (forall i, j :: 0 <= i < j < |t.Values()| ==> idOf(t.Values()[i]) < idOf(t.Values()[j]))
  {
    if TableOk(t, idOf, next) {
      TableValues(t, idOf, next);
    }
  }

  // The rows seeded by the constructor. Titles, authors, years, dates,
  // places, categories, tags, flags and every link (summary, event, blog,
  // demo, code and social links) are the seeded ones; descriptions, article
  // bodies, the biography and the image URLs (cover images and the avatar)
  // are left empty.

  const InitialBooks: seq<InsertBook> := [
    InsertBook("Atomic Habits", "James Clear", "", "", Some("/books/atomic-habits"), Some(2018),
               Some(["Productivity", "Self-Improvement", "Psychology"])),
    InsertBook("Thinking, Fast and Slow", "Daniel Kahneman", "", "", Some("/books/thinking-fast-and-slow"),
               Some(2011), Some(["Psychology", "Behavioral Economics", "Decision Making"])),
    InsertBook("The Lean Startup", "Eric Ries", "", "", Some("/books/the-lean-startup"), Some(2011),
               Some(["Business", "Entrepreneurship", "Innovation"]))
  ]

  const InitialEvents: seq<InsertEvent> := [
    InsertEvent("TechCrunch Disrupt", "", "June 2023", "San Francisco, CA",
                Some(["Speaker", "AI", "Technology"]), Some("https://techcrunch.com/events/disrupt-2023/")),
    InsertEvent("Web Summit", "", "November 2022", "Berlin, Germany",
                Some(["Workshop", "Web Development", "Accessibility"]), Some("https://websummit.com/")),
    InsertEvent("SXSW Interactive", "", "March 2022", "Austin, TX",
                Some(["Hackathon", "Sustainability", "Innovation"]), Some("https://www.sxsw.com/"))
  ]

  const InitialBlogs: seq<InsertBlog> := [
    InsertBlog("Modern JavaScript Techniques Every Developer Should Know", "", "", "",
               "Web Development", "August 15, 2023", Some("/blogs/modern-javascript-techniques")),
    InsertBlog("The Ethical Implications of Machine Learning Models", "", "", "",
               "AI & Ethics", "June 22, 2023", Some("/blogs/ethical-implications-machine-learning")),
    InsertBlog("Effective Reading Strategies for Knowledge Workers", "", "", "",
               "Productivity", "April 10, 2023", Some("/blogs/reading-strategies-knowledge-workers"))
  ]

  const InitialProjects: seq<InsertProject> := [
    InsertProject("Intelligent Task Manager", "", "", Some(["React", "Node.js", "TensorFlow.js", "MongoDB"]),
                  Some("https://task-manager-demo.example.com"),
                  Some("https://github.com/johndoe/intelligent-task-manager"), Some(true)),
    InsertProject("E-commerce Analytics Dashboard", "", "", Some(["Vue.js", "D3.js", "GraphQL", "Firebase"]),
                  Some("https://ecommerce-analytics.example.com"),
                  Some("https://github.com/johndoe/ecommerce-analytics"), Some(false)),
    InsertProject("Natural Language Processing API", "", "", Some(["Python", "Flask", "spaCy", "Docker"]),
                  Some("https://nlp-api-docs.example.com"),
                  Some("https://github.com/johndoe/nlp-api"), Some(false)),
    InsertProject("Mobile Fitness App", "", "", Some(["React Native", "Redux", "Express", "PostgreSQL"]),
                  Some("https://fitness-app.example.com"),
                  Some("https://github.com/johndoe/fitness-app"), Some(false))
  ]

  const InitialProfile: InsertProfile :=
    InsertProfile("John Doe", "Software Engineer & Tech Writer", "", "", "hello@johndoe.com",
                  "San Francisco, California", Some("Monday - Friday: 9AM - 5PM PST"),
                  SocialLinks(Some("https://twitter.com/johndoe"), Some("https://github.com/johndoe"),
                              Some("https://linkedin.com/in/johndoe"), Some("https://medium.com/@johndoe")))

  /**
   * The `createdAt` of every seed row: each row of the seed arrays reads the
   * clock on its own (`createdAt: new Date()`) when the module is loaded.
   */
  datatype SeedStamps = SeedStamps(
    books: seq<Timestamp>, events: seq<Timestamp>, blogs: seq<Timestamp>, projects: seq<Timestamp>)

  /** One stamp per seed row: three books, three events, three blogs and four projects. */
  predicate SeedStampsFit(st: SeedStamps) {
    |st.books| == 3 && |st.events| == 3 && |st.blogs| == 3 && |st.projects| == 4
  }

  /** Seed inputs numbered from 1, each with its own stamp. */
  function BookRows(inputs: seq<InsertBook>, stamps: seq<Timestamp>): (rows: seq<Book>)
    requires |stamps| == |inputs|
    ensures |rows| == |inputs|
    ensures forall i :: 0 <= i < |rows| ==> rows[i] == NewBook(inputs[i], i + 1, stamps[i])
  {
    seq(|inputs|, i requires 0 <= i < |inputs| => NewBook(inputs[i], i + 1, stamps[i]))
  }

  function EventRows(inputs: seq<InsertEvent>, stamps: seq<Timestamp>): (rows: seq<Event>)
    requires |stamps| == |inputs|
    ensures |rows| == |inputs|
    ensures forall i :: 0 <= i < |rows| ==> rows[i] == NewEvent(inputs[i], i + 1, stamps[i])
  {
    seq(|inputs|, i requires 0 <= i < |inputs| => NewEvent(inputs[i], i + 1, stamps[i]))
  }

  function BlogRows(inputs: seq<InsertBlog>, stamps: seq<Timestamp>): (rows: seq<Blog>)
    requires |stamps| == |inputs|
    ensures |rows| == |inputs|
    ensures forall i :: 0 <= i < |rows| ==> rows[i] == NewBlog(inputs[i], i + 1, stamps[i])
  {
    seq(|inputs|, i requires 0 <= i < |inputs| => NewBlog(inputs[i], i + 1, stamps[i]))
  }

  function ProjectRows(inputs: seq<InsertProject>, stamps: seq<Timestamp>): (rows: seq<Project>)
    requires |stamps| == |inputs|
    ensures |rows| == |inputs|
    ensures forall i :: 0 <= i < |rows| ==> rows[i] == NewProject(inputs[i], i + 1, stamps[i])
  {
    seq(|inputs|, i requires 0 <= i < |inputs| => NewProject(inputs[i], i + 1, stamps[i]))
  }

  class MemStorage {
    var users: OrderedMap<User>
    var booksStore: OrderedMap<Book>
    var eventsStore: OrderedMap<Event>
    var blogsStore: OrderedMap<Blog>
    var projectsStore: OrderedMap<Project>
    var contactMessagesStore: OrderedMap<ContactMessage>
    var profileStore: OrderedMap<Profile>

    var currentId: int
    var bookId: int
    var eventId: int
    var blogId: int
    var projectId: int
    var contactId: int
    var profileId: int

    ghost function State(): StoreState
      reads this
    {
      StoreState(users, currentId, booksStore, bookId, eventsStore, eventId, blogsStore, blogId,
                 projectsStore, projectId, contactMessagesStore, contactId, profileStore, profileId)
    }

    /** The store invariant of the current state. */
    ghost predicate Valid()
      reads this
    {
      Inv(State())
    }

    /**
     * Empty tables, every counter at 1, then the seed data: books 1..3,
     * events 1..3, blogs 1..3, projects 1..4 and the profile under key 1.
     * The constructor reads no clock: the seed rows carry the stamps taken
     * when the module was loaded.
     */
    constructor(seedStamps: SeedStamps)
      requires SeedStampsFit(seedStamps)
      ensures Valid()
      ensures GetBooks() == BookRows(InitialBooks, seedStamps.books) && bookId == 4
      ensures GetEvents() == EventRows(InitialEvents, seedStamps.events) && eventId == 4
      ensures GetBlogs() == BlogRows(InitialBlogs, seedStamps.blogs) && blogId == 4
      ensures GetProjects() == ProjectRows(InitialProjects, seedStamps.projects) && projectId == 5
      ensures profileStore == Empty<Profile>().Set(1, NewProfile(InitialProfile, 1)) && profileId == 1
      ensures users == Empty() && currentId == 1
      ensures contactMessagesStore == Empty() && contactId == 1
    {
      users := Empty();
      booksStore := Empty();
      eventsStore := Empty();
      blogsStore := Empty();
      projectsStore := Empty();
      contactMessagesStore := Empty();
      profileStore := Empty();
      currentId := 1;
      bookId := 1;
      eventId := 1;
      blogId := 1;
      projectId := 1;
      contactId := 1;
      profileId := 1;
      new;
      SeedInitialData(seedStamps);
    }

    /** The four seed loops, then the profile under `profileId`. */
    method SeedInitialData(seedStamps: SeedStamps)
      requires SeedStampsFit(seedStamps)
      requires users == Empty() && currentId == 1
      requires booksStore == Empty() && bookId == 1
      requires eventsStore == Empty() && eventId == 1
      requires blogsStore == Empty() && blogId == 1
      requires projectsStore == Empty() && projectId == 1
      requires contactMessagesStore == Empty() && contactId == 1
      requires profileStore == Empty() && profileId == 1
      modifies this
      ensures Valid()
      ensures booksStore.Values() == BookRows(InitialBooks, seedStamps.books) && bookId == |InitialBooks| + 1
      ensures eventsStore.Values() == EventRows(InitialEvents, seedStamps.events) && eventId == |InitialEvents| + 1
      ensures blogsStore.Values() == BlogRows(InitialBlogs, seedStamps.blogs) && blogId == |InitialBlogs| + 1
      ensures projectsStore.Values() == ProjectRows(InitialProjects, seedStamps.projects)
      ensures projectId == |InitialProjects| + 1
      ensures profileStore == Empty<Profile>().Set(1, NewProfile(InitialProfile, 1)) && profileId == 1
      ensures users == Empty() && currentId == 1
      ensures contactMessagesStore == Empty() && contactId == 1
    {
      SeedBooks(InitialBooks, seedStamps.books);
      SeedEvents(InitialEvents, seedStamps.events);
      SeedBlogs(InitialBlogs, seedStamps.blogs);
      SeedProjects(InitialProjects, seedStamps.projects);
      profileStore := profileStore.Set(profileId, NewProfile(InitialProfile, profileId));
      assert ProfileTableOk(profileStore, profileId) by {
        assert profileStore.keys == [1];
      }
      InvIntro(State());
    }

    /** `initialBooks.forEach(...)`: each seed row gets the next id, in order. */
    method SeedBooks(inputs: seq<InsertBook>, stamps: seq<Timestamp>)
      requires |stamps| == |inputs|
      requires booksStore == Empty() && bookId == 1
      modifies this
      ensures State() == old(State()).(books := booksStore, bookId := bookId)
      ensures booksStore.Values() == BookRows(inputs, stamps) && bookId == |inputs| + 1
      ensures StampedTable(booksStore, BookId, BookCreatedAt, bookId)
    {
      ghost var rows := BookRows(inputs, stamps);
      var i := 0;
      while i < |inputs|
        invariant 0 <= i <= |inputs|
        invariant bookId == i + 1 && booksStore.Values() == rows[..i]
        invariant StampedTable(booksStore, BookId, BookCreatedAt, bookId)
        modifies this`booksStore, this`bookId
      {
        var id := bookId;
        bookId := bookId + 1;
        var book := NewBook(inputs[i], id, stamps[i]);
        StampedInsert(booksStore, BookId, BookCreatedAt, id, book);
        assert book == rows[i];
        TakeSnoc(rows, i);
        booksStore := booksStore.Set(id, book);
        i := i + 1;
      }
      assert rows[..i] == rows;
    }

    /** `initialEvents.forEach(...)`: each seed row gets the next id, in order. */
    method SeedEvents(inputs: seq<InsertEvent>, stamps: seq<Timestamp>)
      requires |stamps| == |inputs|
      requires eventsStore == Empty() && eventId == 1
      modifies this
      ensures State() == old(State()).(events := eventsStore, eventId := eventId)
      ensures eventsStore.Values() == EventRows(inputs, stamps) && eventId == |inputs| + 1
      ensures StampedTable(eventsStore, EventId, EventCreatedAt, eventId)
    {
      ghost var rows := EventRows(inputs, stamps);
      var i := 0;
      while i < |inputs|
        invariant 0 <= i <= |inputs|
        invariant eventId == i + 1 && eventsStore.Values() == rows[..i]
        invariant StampedTable(eventsStore, EventId, EventCreatedAt, eventId)
        modifies this`eventsStore, this`eventId
      {
        var id := eventId;
        eventId := eventId + 1;
        var event := NewEvent(inputs[i], id, stamps[i]);
        StampedInsert(eventsStore, EventId, EventCreatedAt, id, event);
        assert event == rows[i];
        TakeSnoc(rows, i);
        eventsStore := eventsStore.Set(id, event);
        i := i + 1;
      }
      assert rows[..i] == rows;
    }

    /** `initialBlogs.forEach(...)`: each seed row gets the next id, in order. */
    method SeedBlogs(inputs: seq<InsertBlog>, stamps: seq<Timestamp>)
      requires |stamps| == |inputs|
      requires blogsStore == Empty() && blogId == 1
      modifies this
      ensures State() == old(State()).(blogs := blogsStore, blogId := blogId)
      ensures blogsStore.Values() == BlogRows(inputs, stamps) && blogId == |inputs| + 1
      ensures StampedTable(blogsStore, BlogId, BlogCreatedAt, blogId)
    {
      ghost var rows := BlogRows(inputs, stamps);
      var i := 0;
      while i < |inputs|
        invariant 0 <= i <= |inputs|
        invariant blogId == i + 1 && blogsStore.Values() == rows[..i]
        invariant StampedTable(blogsStore, BlogId, BlogCreatedAt, blogId)
        modifies this`blogsStore, this`blogId
      {
        var id := blogId;
        blogId := blogId + 1;
        var blog := NewBlog(inputs[i], id, stamps[i]);
        StampedInsert(blogsStore, BlogId, BlogCreatedAt, id, blog);
        assert blog == rows[i];
        TakeSnoc(rows, i);
        blogsStore := blogsStore.Set(id, blog);
        i := i + 1;
      }
      assert rows[..i] == rows;
    }

    /** `initialProjects.forEach(...)`: each seed row gets the next id, in order. */
    method SeedProjects(inputs: seq<InsertProject>, stamps: seq<Timestamp>)
      requires |stamps| == |inputs|
      requires projectsStore == Empty() && projectId == 1
      modifies this
      ensures State() == old(State()).(projects := projectsStore, projectId := projectId)
      ensures projectsStore.Values() == ProjectRows(inputs, stamps) && projectId == |inputs| + 1
      ensures StampedTable(projectsStore, ProjectId, ProjectCreatedAt, projectId)
    {
      ghost var rows := ProjectRows(inputs, stamps);
      var i := 0;
      while i < |inputs|
        invariant 0 <= i <= |inputs|
        invariant projectId == i + 1 && projectsStore.Values() == rows[..i]
        invariant StampedTable(projectsStore, ProjectId, ProjectCreatedAt, projectId)
        modifies this`projectsStore, this`projectId
      {
        var id := projectId;
        projectId := projectId + 1;
        var project := NewProject(inputs[i], id, stamps[i]);
        StampedInsert(projectsStore, ProjectId, ProjectCreatedAt, id, project);
        assert project == rows[i];
        TakeSnoc(rows, i);
        projectsStore := projectsStore.Set(id, project);
        i := i + 1;
      }
      assert rows[..i] == rows;
    }

    // User methods

    /** `users.get(id)`. */
    function GetUser(id: int): (r: Option<User>)
      reads this
      ensures r.Some? <==> id in users.entries
      ensures r.Some? ==> r.value == users.entries[id]
      ensures Valid() && r.Some? ==> r.value.id == id
      ensures Valid() && (id < 1 || id >= currentId) ==> r.None?
    {
      users.Get(id)
    }

    /**
     * The first user, in insertion order, whose username equals `username`
     * exactly: because ids ascend with insertion, the one with the smallest id.
     */
    function GetUserByUsername(username: string): (r: Option<User>)
      reads this
      ensures Valid() ==>
        (r.None? <==> forall k :: k in users.entries ==> users.entries[k].username != username)
      ensures Valid() && r.Some? ==>
        && r.value.username == username
        && r.value.id in users.entries && users.entries[r.value.id] == r.value
        && forall k :: k in users.entries && k < r.value.id ==> users.entries[k].username != username
    {
      FirstWithUsernameIf(users, currentId, username);
      JsBuiltins.Find(users.Values(), NamedBy(username))
    }

    /** `{ ...insertUser, id: currentId++ }`, with no check that the username is free. */
    method CreateUser(insertUser: InsertUser) returns (user: User)
      requires Valid()
      modifies this`users, this`currentId
      ensures Valid()
      ensures user == NewUser(insertUser, old(currentId))
      ensures old(currentId) !in old(users.entries)
      ensures users == old(users).Set(old(currentId), user) && currentId == old(currentId) + 1
    {
      ghost var s := State();
      var id := currentId;
      currentId := currentId + 1;
      user := NewUser(insertUser, id);
      UserInsert(users, id, user);
      users := users.Set(id, user);
      InvUsers(s, users, currentId);
    }

    // Book methods

    /** `Array.from(booksStore.values())`: every stored row once, in insertion (= id) order. */
    function GetBooks(): (r: seq<Book>)
      reads this
      ensures Valid() ==>
        && |r| == |booksStore.entries|
        && (forall i :: 0 <= i < |r| ==> r[i].id in booksStore.entries && booksStore.entries[r[i].id] == r[i])
        && (forall k :: k in booksStore.entries ==> booksStore.entries[k] in r)
        && (forall i, j :: 0 <= i < j < |r| ==> r[i].id < r[j].id)
    {
      TableValuesIf(booksStore, BookId, bookId);
      booksStore.Values()
    }

    /** `booksStore.get(id)`: undefined for an id that was never handed out. */
    function GetBook(id: int): (r: Option<Book>)
      reads this
      ensures r.Some? <==> id in booksStore.entries
      ensures r.Some? ==> r.value == booksStore.entries[id]
      ensures Valid() && r.Some? ==> r.value.id == id && r.value.createdAt.Some?
      ensures Valid() && (id < 1 || id >= bookId) ==> r.None?
    {
      booksStore.Get(id)
    }

    /** `{ ...insertBook, id: bookId++, createdAt: now }`. */
    method CreateBook(insertBook: InsertBook, now: Timestamp) returns (book: Book)
      requires Valid()
      modifies this`booksStore, this`bookId
      ensures Valid()
      ensures book == NewBook(insertBook, old(bookId), now)
      ensures old(bookId) !in old(booksStore.entries)
      ensures booksStore == old(booksStore).Set(old(bookId), book) && bookId == old(bookId) + 1
      ensures GetBook(book.id) == Some(book) && GetBooks() == old(GetBooks()) + [book]
    {
      ghost var s := State();
      var id := bookId;
      bookId := bookId + 1;
      book := NewBook(insertBook, id, now);
      StampedInsert(booksStore, BookId, BookCreatedAt, id, book);
      booksStore := booksStore.Set(id, book);
      InvBooks(s, booksStore, bookId);
    }

    // Event methods

    /** `Array.from(eventsStore.values())`: every stored row once, in insertion (= id) order. */
    function GetEvents(): (r: seq<Event>)
      reads this
      ensures Valid() ==>
        && |r| == |eventsStore.entries|
        && (forall i :: 0 <= i < |r| ==> r[i].id in eventsStore.entries && eventsStore.entries[r[i].id] == r[i])
        && (forall k :: k in eventsStore.entries ==> eventsStore.entries[k] in r)
        && (forall i, j :: 0 <= i < j < |r| ==> r[i].id < r[j].id)
    {
      TableValuesIf(eventsStore, EventId, eventId);
      eventsStore.Values()
    }

    /** `eventsStore.get(id)`: undefined for an id that was never handed out. */
    function GetEvent(id: int): (r: Option<Event>)
      reads this
      ensures r.Some? <==> id in eventsStore.entries
      ensures r.Some? ==> r.value == eventsStore.entries[id]
      ensures Valid() && r.Some? ==> r.value.id == id && r.value.createdAt.Some?
      ensures Valid() && (id < 1 || id >= eventId) ==> r.None?
    {
      eventsStore.Get(id)
    }

    /** `{ ...insertEvent, id: eventId++, createdAt: now }`. */
    method CreateEvent(insertEvent: InsertEvent, now: Timestamp) returns (event: Event)
      requires Valid()
      modifies this`eventsStore, this`eventId
      ensures Valid()
      ensures event == NewEvent(insertEvent, old(eventId), now)
      ensures old(eventId) !in old(eventsStore.entries)
      ensures eventsStore == old(eventsStore).Set(old(eventId), event) && eventId == old(eventId) + 1
      ensures GetEvent(event.id) == Some(event) && GetEvents() == old(GetEvents()) + [event]
    {
      ghost var s := State();
      var id := eventId;
      eventId := eventId + 1;
      event := NewEvent(insertEvent, id, now);
      StampedInsert(eventsStore, EventId, EventCreatedAt, id, event);
      eventsStore := eventsStore.Set(id, event);
      InvEvents(s, eventsStore, eventId);
    }

    // Blog methods

    /** `Array.from(blogsStore.values())`: every stored row once, in insertion (= id) order. */
    function GetBlogs(): (r: seq<Blog>)
      reads this
      ensures Valid() ==>
        && |r| == |blogsStore.entries|
        && (forall i :: 0 <= i < |r| ==> r[i].id in blogsStore.entries && blogsStore.entries[r[i].id] == r[i])
        && (forall k :: k in blogsStore.entries ==> blogsStore.entries[k] in r)
        && (forall i, j :: 0 <= i < j < |r| ==> r[i].id < r[j].id)
    {
      TableValuesIf(blogsStore, BlogId, blogId);
      blogsStore.Values()
    }

    /** `blogsStore.get(id)`: undefined for an id that was never handed out. */
    function GetBlog(id: int): (r: Option<Blog>)
      reads this
      ensures r.Some? <==> id in blogsStore.entries
      ensures r.Some? ==> r.value == blogsStore.entries[id]
      ensures Valid() && r.Some? ==> r.value.id == id && r.value.createdAt.Some?
      ensures Valid() && (id < 1 || id >= blogId) ==> r.None?
    {
      blogsStore.Get(id)
    }

    /** `{ ...insertBlog, id: blogId++, createdAt: now }`. */
    method CreateBlog(insertBlog: InsertBlog, now: Timestamp) returns (blog: Blog)
      requires Valid()
      modifies this`blogsStore, this`blogId
      ensures Valid()
      ensures blog == NewBlog(insertBlog, old(blogId), now)
      ensures old(blogId) !in old(blogsStore.entries)
      ensures blogsStore == old(blogsStore).Set(old(blogId), blog) && blogId == old(blogId) + 1
      ensures GetBlog(blog.id) == Some(blog) && GetBlogs() == old(GetBlogs()) + [blog]
    {
      ghost var s := State();
      var id := blogId;
      blogId := blogId + 1;
      blog := NewBlog(insertBlog, id, now);
      StampedInsert(blogsStore, BlogId, BlogCreatedAt, id, blog);
      blogsStore := blogsStore.Set(id, blog);
      InvBlogs(s, blogsStore, blogId);
    }

    // Project methods

    /** `Array.from(projectsStore.values())`: every stored row once, in insertion (= id) order. */
    function GetProjects(): (r: seq<Project>)
      reads this
      ensures Valid() ==>
        && |r| == |projectsStore.entries|
        && (forall i :: 0 <= i < |r| ==> r[i].id in projectsStore.entries && projectsStore.entries[r[i].id] == r[i])
        && (forall k :: k in projectsStore.entries ==> projectsStore.entries[k] in r)
        && (forall i, j :: 0 <= i < j < |r| ==> r[i].id < r[j].id)
    {
      TableValuesIf(projectsStore, ProjectId, projectId);
      projectsStore.Values()
    }

    /** `projectsStore.get(id)`: undefined for an id that was never handed out. */
    function GetProject(id: int): (r: Option<Project>)
      reads this
      ensures r.Some? <==> id in projectsStore.entries
      ensures r.Some? ==> r.value == projectsStore.entries[id]
      ensures Valid() && r.Some? ==> r.value.id == id && r.value.createdAt.Some?
      ensures Valid() && (id < 1 || id >= projectId) ==> r.None?
    {
      projectsStore.Get(id)
    }

    /** `{ ...insertProject, id: projectId++, createdAt: now }`. */
    method CreateProject(insertProject: InsertProject, now: Timestamp) returns (project: Project)
      requires Valid()
      modifies this`projectsStore, this`projectId
      ensures Valid()
      ensures project == NewProject(insertProject, old(projectId), now)
      ensures old(projectId) !in old(projectsStore.entries)
      ensures projectsStore == old(projectsStore).Set(old(projectId), project) && projectId == old(projectId) + 1
      ensures GetProject(project.id) == Some(project) && GetProjects() == old(GetProjects()) + [project]
    {
      ghost var s := State();
      var id := projectId;
      projectId := projectId + 1;
      project := NewProject(insertProject, id, now);
      StampedInsert(projectsStore, ProjectId, ProjectCreatedAt, id, project);
      projectsStore := projectsStore.Set(id, project);
      InvProjects(s, projectsStore, projectId);
    }

    // Contact methods

    /** `{ ...insertMessage, id: contactId++, createdAt: now }`; nothing reads messages back. */
    method CreateContactMessage(insertMessage: InsertContact, now: Timestamp) returns (message: ContactMessage)
      requires Valid()
      modifies this`contactMessagesStore, this`contactId
      ensures Valid()
      ensures message == NewContactMessage(insertMessage, old(contactId), now)
      ensures old(contactId) !in old(contactMessagesStore.entries)
      ensures contactMessagesStore == old(contactMessagesStore).Set(old(contactId), message)
      ensures contactId == old(contactId) + 1
      ensures contactMessagesStore.Get(message.id) == Some(message)
      ensures contactMessagesStore.Values() == old(contactMessagesStore.Values()) + [message]
    {
      ghost var s := State();
      var id := contactId;
      contactId := contactId + 1;
      message := NewContactMessage(insertMessage, id, now);
      StampedInsert(contactMessagesStore, ContactId, ContactCreatedAt, id, message);
      contactMessagesStore := contactMessagesStore.Set(id, message);
      InvContacts(s, contactMessagesStore, contactId);
    }

    // Profile methods

    /** `profileStore.get(profileId)`: the one profile row. */
    function GetProfile(): (r: Option<Profile>)
      reads this
      ensures r.Some? <==> profileId in profileStore.entries
      ensures r.Some? ==> r.value == profileStore.entries[profileId]
      ensures Valid() ==> r.Some? && r.value.id == 1
    {
      profileStore.Get(profileId)
    }

    /**
     * `{ ...insertProfile, id: profileId }` stored under `profileId`: an
     * upsert that replaces the one row and never adds a second.
     */
    method UpdateProfile(insertProfile: InsertProfile) returns (profile: Profile)
      requires Valid()
      modifies this`profileStore
      ensures Valid()
      ensures profile == NewProfile(insertProfile, 1)
      ensures profileStore == old(profileStore).Set(1, profile)
      ensures profileStore.keys == [1] && profileStore.entries == map[1 := profile]
      ensures GetProfile() == Some(profile)
    {
      profile := NewProfile(insertProfile, profileId);
      ghost var s := State();
      ProfileUpsert(profileStore, profileId, profile);
      profileStore := profileStore.Set(profileId, profile);
      InvProfiles(s, profileStore);
    }
  }
}

/** Consequences of MemStorage's contracts for a freshly constructed store. */
module StorageScenarios {
  import opened Wrappers
  import opened Schema
  import opened OrderedMaps
  import opened Storage
  import JsBuiltins

  /** A user table holding two namesakes under ids 1 and 2 lists both, and a search by the name finds the first. */
  lemma Namesakes(first: User, second: User)
    requires first.id == 1 && second.id == 2 && first.username == second.username
    ensures Empty<User>().Set(1, first).Set(2, second).Values() == [first, second]
    ensures JsBuiltins.Find([first, second], NamedBy(first.username)) == Some(first)
  {
    var t1 := Empty<User>().Set(1, first);
    TableInsertValues(Empty(), UserId, 1, first);
    UserInsert(Empty(), 1, first);
    TableInsertValues(t1, UserId, 2, second);
    assert NamedBy(first.username)([first, second][0]);
  }

  /**
   * Usernames are not checked for uniqueness: on a fresh store, two users
   * created one after the other with the same name are both stored, under
   * ids 1 and 2, so the declared `unique()` constraint does not hold of the
   * table, and a lookup by that name returns the first one.
   */
  method DuplicateUsernames(stamps: SeedStamps, a: InsertUser, b: InsertUser)
    returns (first: User, second: User, found: Option<User>, listed: seq<User>)
    requires SeedStampsFit(stamps) && a.username == b.username
    ensures first.id == 1 && second.id == 2
    ensures found == Some(first)
    ensures listed == [first, second] && !UsernamesUnique(listed)
  {
    var store;
    store, first, second := StoreWithTwoUsers(stamps, a, b);
    Namesakes(first, second);
    found := store.GetUserByUsername(a.username);
    listed := store.users.Values();
    assert listed[0].username == listed[1].username;
  }

  /** A fresh store on which two users are created, one after the other. */
  method StoreWithTwoUsers(stamps: SeedStamps, a: InsertUser, b: InsertUser)
    returns (store: MemStorage, first: User, second: User)
    requires SeedStampsFit(stamps)
    ensures fresh(store)
    ensures first == NewUser(a, 1) && second == NewUser(b, 2)
    ensures store.users == Empty<User>().Set(1, first).Set(2, second)
  {
    store := new MemStorage(stamps);
    first := store.CreateUser(a);
    second := store.CreateUser(b);
  }

  /** A fresh store lists its three seeded books under ids 1, 2 and 3, each with its seed stamp. */
  method SeededBooks(stamps: SeedStamps) returns (books: seq<Book>, missing: Option<Book>)
    requires SeedStampsFit(stamps)
    ensures |books| == 3
    ensures forall i :: 0 <= i < 3 ==> books[i].id == i + 1 && books[i].createdAt == Some(stamps.books[i])
    ensures books[0].title == "Atomic Habits" && books[2].author == "Eric Ries"
    ensures missing.None?
  {
    var store := new MemStorage(stamps);
    books := store.GetBooks();
    missing := store.GetBook(4);
  }

  /** The seeds use up the first ids: the next book created gets id 4. */
  method FirstCreatedBook(stamps: SeedStamps, now: Timestamp, b: InsertBook) returns (book: Book)
    requires SeedStampsFit(stamps)
    ensures book.id == 4 && book.createdAt == Some(now) && BookInsert(book) == b
  {
    var store := new MemStorage(stamps);
    book := store.CreateBook(b, now);
  }

  /** The next project created after the four seeded ones gets id 5. */
  method FirstCreatedProject(stamps: SeedStamps, now: Timestamp, p: InsertProject) returns (project: Project)
    requires SeedStampsFit(stamps)
    ensures project.id == 5 && project.createdAt == Some(now) && ProjectInsert(project) == p
  {
    var store := new MemStorage(stamps);
    project := store.CreateProject(p, now);
  }

  /** Updating the profile twice leaves one profile, the second, under id 1. */
  method ProfileUpdatedTwice(stamps: SeedStamps, p1: InsertProfile, p2: InsertProfile) returns (profile: Option<Profile>)
    requires SeedStampsFit(stamps)
    ensures profile == Some(NewProfile(p2, 1))
  {
    var store := new MemStorage(stamps);
    var _ := store.UpdateProfile(p1);
    var _ := store.UpdateProfile(p2);
    profile := store.GetProfile();
  }
}
