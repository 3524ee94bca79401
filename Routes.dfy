/**
 * The JSON API of the portfolio server. A handler is modelled by what it
 * sends back: a status code and a body. Whether the storage call's promise
 * rejects is the parameter `fails`: the in-memory store never rejects, but
 * the handlers are written against any storage and turn a rejection into
 * a 500 response.
 */
module Routes {
  import opened Wrappers
  import opened Schema
  import opened OrderedMaps
  import opened Storage
  import JsBuiltins

  /** A response body. */
  datatype Body<T> =
    | Message(text: string)           // `{ message }`
    | Payload(value: T)               // `res.json(value)`
    | Created(text: string, id: int)  // `{ message, id }`
    | Invalid(issues: seq<Issue>)     // `{ message }` built from the schema's issues

  datatype Response<T> = Response(status: int, body: Body<T>)

  /** The three messages of a lookup-by-id handler. */
  datatype LookupMessages = LookupMessages(invalid: string, notFound: string, failed: string)

  const BookMessages := LookupMessages("Invalid book ID", "Book not found", "Error fetching book")
  const EventMessages := LookupMessages("Invalid event ID", "Event not found", "Error fetching event")
  const BlogMessages := LookupMessages("Invalid blog ID", "Blog not found", "Error fetching blog")
  const ProjectMessages := LookupMessages("Invalid project ID", "Project not found", "Error fetching project")

  const ThankYou := "Thank you for your message! I'll get back to you soon."

  /**
   * `GET /api/<table>/:id`: the raw path segment goes through parseInt;
   * NaN is a 400, a rejected lookup a 500, a missing row a 404 and a
   * stored row a 200 carrying that row.
   */
  function ItemRoute<T>(table: OrderedMap<T>, rawId: string, fails: bool, m: LookupMessages): (r: Response<T>)
    ensures r.status in {200, 400, 404, 500}
    ensures r.status == 400 <==> JsBuiltins.ParseInt(rawId).None?
    ensures r.status == 500 <==> JsBuiltins.ParseInt(rawId).Some? && fails
    ensures r.status == 404 <==>
      JsBuiltins.ParseInt(rawId).Some? && !fails && JsBuiltins.ParseInt(rawId).value !in table.entries
    ensures r.status == 200 <==>
      JsBuiltins.ParseInt(rawId).Some? && !fails && JsBuiltins.ParseInt(rawId).value in table.entries
    ensures r.status == 200 ==> r.body == Payload(table.entries[JsBuiltins.ParseInt(rawId).value])
    ensures r.status == 400 ==> r.body == Message(m.invalid)
    ensures r.status == 404 ==> r.body == Message(m.notFound)
    ensures r.status == 500 ==> r.body == Message(m.failed)
  {
    match JsBuiltins.ParseInt(rawId)
    case None => Response(400, Message(m.invalid))
    case Some(id) =>
      if fails then Response(500, Message(m.failed))
      else match table.Get(id)
        case None => Response(404, Message(m.notFound))
        case Some(row) => Response(200, Payload(row))
  }

  /** The decimal numeral of a stored id, as a client writes it in the path, fetches that row. */
  lemma ItemRouteServesStored<T>(table: OrderedMap<T>, k: nat, m: LookupMessages)
    requires k in table.entries
    ensures ItemRoute(table, JsBuiltins.DecimalString(k), false, m) == Response(200, Payload(table.entries[k]))
  {
    JsBuiltins.ParseIntDecimal(k);
  }

  /** A path whose number names no stored row is a 404, whatever follows the digits. */
  lemma ItemRouteMissing<T>(table: OrderedMap<T>, k: nat, rest: string, m: LookupMessages)
    requires k !in table.entries
    requires rest == [] || !('0' <= rest[0] <= '9')
    requires !(k == 0 && rest != [] && (rest[0] == 'x' || rest[0] == 'X'))
    ensures ItemRoute(table, JsBuiltins.DecimalString(k) + rest, false, m) == Response(404, Message(m.notFound))
  {
    var d := JsBuiltins.DecimalString(k);
    JsBuiltins.DecimalStringValue(k);
    assert d == "0" ==> k == 0 by {
      if d == "0" { assert JsBuiltins.DigitsValue(d, 10) == 0 by { assert d[..0] == ""; } }
    }
    JsBuiltins.DecimalPrefix(d, rest);
  }

  /** `GET /api/books/:id`. */
  function BookRoute(store: MemStorage, rawId: string, fails: bool): (r: Response<Book>)
    reads store
    ensures JsBuiltins.ParseInt(rawId).None? ==> r == Response(400, Message("Invalid book ID"))
    ensures JsBuiltins.ParseInt(rawId).Some? && fails ==> r == Response(500, Message("Error fetching book"))
    ensures JsBuiltins.ParseInt(rawId).Some? && !fails ==>
      var id := JsBuiltins.ParseInt(rawId).value;
      match store.GetBook(id)
      case None => r == Response(404, Message("Book not found"))
      case Some(row) => r == Response(200, Payload(row)) && (store.Valid() ==> row.id == id)
  {
    ItemRoute(store.booksStore, rawId, fails, BookMessages)
  }

  /** `GET /api/events/:id`. */
  function EventRoute(store: MemStorage, rawId: string, fails: bool): (r: Response<Event>)
    reads store
    ensures JsBuiltins.ParseInt(rawId).None? ==> r == Response(400, Message("Invalid event ID"))
    ensures JsBuiltins.ParseInt(rawId).Some? && fails ==> r == Response(500, Message("Error fetching event"))
    ensures JsBuiltins.ParseInt(rawId).Some? && !fails ==>
      var id := JsBuiltins.ParseInt(rawId).value;
      match store.GetEvent(id)
      case None => r == Response(404, Message("Event not found"))
      case Some(row) => r == Response(200, Payload(row)) && (store.Valid() ==> row.id == id)
  {
    ItemRoute(store.eventsStore, rawId, fails, EventMessages)
  }

  /** `GET /api/blogs/:id`. */
  function BlogRoute(store: MemStorage, rawId: string, fails: bool): (r: Response<Blog>)
    reads store
    ensures JsBuiltins.ParseInt(rawId).None? ==> r == Response(400, Message("Invalid blog ID"))
    ensures JsBuiltins.ParseInt(rawId).Some? && fails ==> r == Response(500, Message("Error fetching blog"))
    ensures JsBuiltins.ParseInt(rawId).Some? && !fails ==>
      var id := JsBuiltins.ParseInt(rawId).value;
      match store.GetBlog(id)
      case None => r == Response(404, Message("Blog not found"))
      case Some(row) => r == Response(200, Payload(row)) && (store.Valid() ==> row.id == id)
  {
    ItemRoute(store.blogsStore, rawId, fails, BlogMessages)
  }

  /** `GET /api/projects/:id`. */
  function ProjectRoute(store: MemStorage, rawId: string, fails: bool): (r: Response<Project>)
    reads store
    ensures JsBuiltins.ParseInt(rawId).None? ==> r == Response(400, Message("Invalid project ID"))
    ensures JsBuiltins.ParseInt(rawId).Some? && fails ==> r == Response(500, Message("Error fetching project"))
    ensures JsBuiltins.ParseInt(rawId).Some? && !fails ==>
      var id := JsBuiltins.ParseInt(rawId).value;
      match store.GetProject(id)
      case None => r == Response(404, Message("Project not found"))
      case Some(row) => r == Response(200, Payload(row)) && (store.Valid() ==> row.id == id)
  {
    ItemRoute(store.projectsStore, rawId, fails, ProjectMessages)
  }

  /** Every book a store holds is served at its id. */
  lemma BookRouteServesStored(store: MemStorage, k: nat)
    requires store.Valid() && k in store.booksStore.entries
    ensures BookRoute(store, JsBuiltins.DecimalString(k), false) == Response(200, Payload(store.booksStore.entries[k]))
  {
    ItemRouteServesStored(store.booksStore, k, BookMessages);
  }

  /** `GET /api/<table>`: the whole listing, or a 500 when the storage call rejects. */
  function ListRoute<T>(rows: seq<T>, fails: bool, failed: string): (r: Response<seq<T>>)
    ensures fails <==> r.status == 500
    ensures fails ==> r.body == Message(failed)
    ensures !fails ==> r == Response(200, Payload(rows))
  {
    if fails then Response(500, Message(failed)) else Response(200, Payload(rows))
  }

  /** `GET /api/books`. */
  function BooksRoute(store: MemStorage, fails: bool): (r: Response<seq<Book>>)
    reads store
    ensures fails ==> r == Response(500, Message("Error fetching books"))
    ensures !fails ==> r.status == 200 && r.body.Payload? && r.body.value == store.GetBooks()
  {
    ListRoute(store.GetBooks(), fails, "Error fetching books")
  }

  /** `GET /api/events`. */
  function EventsRoute(store: MemStorage, fails: bool): (r: Response<seq<Event>>)
    reads store
    ensures fails ==> r == Response(500, Message("Error fetching events"))
    ensures !fails ==> r.status == 200 && r.body.Payload? && r.body.value == store.GetEvents()
  {
    ListRoute(store.GetEvents(), fails, "Error fetching events")
  }

  /** `GET /api/blogs`. */
  function BlogsRoute(store: MemStorage, fails: bool): (r: Response<seq<Blog>>)
    reads store
    ensures fails ==> r == Response(500, Message("Error fetching blogs"))
    ensures !fails ==> r.status == 200 && r.body.Payload? && r.body.value == store.GetBlogs()
  {
    ListRoute(store.GetBlogs(), fails, "Error fetching blogs")
  }

  /** `GET /api/projects`. */
  function ProjectsRoute(store: MemStorage, fails: bool): (r: Response<seq<Project>>)
    reads store
    ensures fails ==> r == Response(500, Message("Error fetching projects"))
    ensures !fails ==> r.status == 200 && r.body.Payload? && r.body.value == store.GetProjects()
  {
    ListRoute(store.GetProjects(), fails, "Error fetching projects")
  }

  /**
   * `GET /api/profile`: 404 when there is no profile, else 200 with it.
   * The in-memory store always holds one, so with it the 404 never happens.
   */
  function ProfileRoute(store: MemStorage, fails: bool): (r: Response<Profile>)
    reads store
    ensures fails <==> r == Response(500, Message("Error fetching profile"))
    ensures !fails && store.GetProfile().None? <==> r == Response(404, Message("Profile not found"))
    ensures !fails && store.GetProfile().Some? ==> r == Response(200, Payload(store.GetProfile().value))
    ensures store.Valid() && !fails ==> r.status == 200 && r.body.value.id == 1
  {
    if fails then Response(500, Message("Error fetching profile"))
    else match store.GetProfile()
      case None => Response(404, Message("Profile not found"))
      case Some(profile) => Response(200, Payload(profile))
  }

  /**
   * `POST /api/contact`: a body the schema rejects is a 400 carrying its
   * issues and stores nothing; an accepted one is stored as the next
   * contact message and answered with 201, the thank-you text and the new
   * id; a rejected storage call is a 500.
   */
  method ContactRoute(store: MemStorage, body: Json, fails: bool, now: Timestamp) returns (r: Response<()>)
    requires store.Valid()
    modifies store`contactMessagesStore, store`contactId
    ensures store.Valid()
    ensures ParseInsertContact(body).Err? ==> r == Response(400, Invalid(ParseInsertContact(body).error))
    ensures ParseInsertContact(body).Ok? && fails ==> r == Response(500, Message("Error submitting contact form"))
    ensures ParseInsertContact(body).Err? || fails ==>
      store.contactMessagesStore == old(store.contactMessagesStore) && store.contactId == old(store.contactId)
    ensures ParseInsertContact(body).Ok? && !fails ==>
      && r == Response(201, Created(ThankYou, old(store.contactId)))
      && store.contactMessagesStore ==
           old(store.contactMessagesStore).Set(old(store.contactId),
             NewContactMessage(ParseInsertContact(body).value, old(store.contactId), now))
      && store.contactId == old(store.contactId) + 1
  {
    var parsed := ParseInsertContact(body);
    if parsed.Err? {
      return Response(400, Invalid(parsed.error));
    }
    if fails {
      return Response(500, Message("Error submitting contact form"));
    }
    var message := store.CreateContactMessage(parsed.value, now);
    r := Response(201, Created(ThankYou, message.id));
  }
}
