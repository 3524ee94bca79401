# Portfolio content store and API, in Dafny

This project models the core of a personal portfolio site. The site serves
books, events, blog posts, projects and one profile over a small JSON API,
and it stores contact-form messages.

The model covers five pieces:

- **The in-memory store** (`MemStorage`). It has seven `Map<number, Row>`
  tables and one auto-increment counter per table. The profile sits under a
  fixed key. The constructor seeds three books, three events, three blog
  posts, four projects and the profile. Each create takes the next id,
  stamps the row with the current time and stores it. Each get is a map
  lookup. Each listing yields the rows in insertion order.
- **The route handlers.** There are four list endpoints and four
  lookup-by-id endpoints, where the id is read with `parseInt`. There is also
  the profile endpoint and the contact endpoint, which validates its body
  with `insertContactSchema`. Each handler is modelled by the status code
  and body it sends back.
- **The table shapes** of the shared schema: each row type and its insert
  shape.
- **The admin dashboard's form transforms.** The book, event and project
  forms turn the comma-separated `tagsInput` text into a `tags` array.
- **The client contact form's schema**: its length and email checks, with
  their messages.

The JavaScript built-ins the core relies on are modelled in `JsBuiltins`, as
ECMAScript defines them. They are:

- `String.prototype.trim`, including its white-space set;
- `String.prototype.split` on one character;
- `parseInt` with no radix: leading white space, a sign, and the `0x`
  prefix that switches to radix 16;
- `Array.prototype.find`;
- string length in UTF-16 code units.

A JavaScript `Map` is modelled in `OrderedMaps` as a finite map that also
remembers the order in which its keys were first set.

Four files carry the model:

- `Storage.dfy` holds a `class MemStorage` whose fields are the source's
  fields. Its methods change those fields, and its `Valid()` invariant
  states what every table keeps:
  - ids are positive and lie below the table's counter;
  - ids ascend in insertion order;
  - each row carries its own key as its id;
  - every stamped row has its `createdAt`;
  - exactly one profile is stored, under key 1.
- `Routes.dfy` holds the handlers, as functions of the store. The contact
  handler is a method, because it writes.
- `AdminForms.dfy` and `ContactForm.dfy` model the two client files.

Where the description of the system and the code disagree, the model
follows the code:

- `createUser` does not check that the username is free, although the
  `users.username` column is declared unique.
- The store does not apply the database default of `featured`.
- An empty piece of the tag text becomes an empty tag; it is not dropped.

## Model

| member | source | states |
|---|---|---|
| Storage.MemStorage.constructor | server/storage.ts:218-239 | Every counter starts at 1, then seeding runs: books, events and blogs are listed as ids 1..3 and projects as 1..4, each seed row carrying its own stamp from the seed arrays (`seedStamps`, one per row); the next ids are 4, 4, 4 and 5; there are no users or messages, and the profile is stored under key 1; the store invariant holds |
| Storage.MemStorage.SeedInitialData | server/storage.ts:241-268 | Starting from empty tables with counters at 1: each seed list is stored in order under ids from 1, so the listings are exactly the seed rows numbered from 1 and each counter ends one past the last seed; the profile is stored under `profileId`; users and messages stay empty; the invariant is established |
| Storage.MemStorage.SeedBooks | server/storage.ts:243-246 | From an empty books table with its counter at 1, the loop stores each seed book under the next id: the listing becomes the seed rows numbered 1.., row i carrying stamp i; the counter ends at the count plus one; the table stays numbered and stamped; no other table changes |
| Storage.MemStorage.SeedEvents | server/storage.ts:249-252 | The same for the seed events |
| Storage.MemStorage.SeedBlogs | server/storage.ts:255-258 | The same for the seed blog posts |
| Storage.MemStorage.SeedProjects | server/storage.ts:261-264 | The same for the seed projects |
| Storage.MemStorage.GetUser | server/storage.ts:271-273 | Some exactly when the id is a key of the users table, and then that row; on a valid store, the row carries the id, and ids outside 1..currentId-1 are undefined |
| Storage.MemStorage.GetUserByUsername | server/storage.ts:275-279 | On a valid store: undefined exactly when no stored user has that exact username; otherwise a stored user with that name and no stored user with a smaller id has it, so it is the first one created |
| Storage.MemStorage.CreateUser | server/storage.ts:281-286 | The new user is the input with id = the old counter, an id never used before; the table gains that row under that id and nothing else changes; the counter goes up by one; there is no name check; the invariant is kept |
| Storage.MemStorage.GetBooks | server/storage.ts:289-291 | On a valid store: one entry per stored row, each the row stored under its id, every stored row present, ids strictly increasing |
| Storage.MemStorage.GetBook | server/storage.ts:293-295 | Some exactly when the id is stored, and then that row; on a valid store that row has that id and a `createdAt`; ids never handed out are undefined |
| Storage.MemStorage.CreateBook | server/storage.ts:297-302 | The row is the input with id = the old counter and `createdAt` = now, under a fresh id; the table gains exactly that row and the counter goes up by one; a get of its id then returns it; the listing becomes the old listing plus the row; the invariant is kept |
| Storage.MemStorage.GetEvents | server/storage.ts:305-307 | As GetBooks, for events |
| Storage.MemStorage.GetEvent | server/storage.ts:309-311 | As GetBook, for events |
| Storage.MemStorage.CreateEvent | server/storage.ts:313-318 | As CreateBook, for events |
| Storage.MemStorage.GetBlogs | server/storage.ts:321-323 | As GetBooks, for blog posts |
| Storage.MemStorage.GetBlog | server/storage.ts:325-327 | As GetBook, for blog posts |
| Storage.MemStorage.CreateBlog | server/storage.ts:329-334 | As CreateBook, for blog posts |
| Storage.MemStorage.GetProjects | server/storage.ts:337-339 | As GetBooks, for projects |
| Storage.MemStorage.GetProject | server/storage.ts:341-343 | As GetBook, for projects |
| Storage.MemStorage.CreateProject | server/storage.ts:345-350 | As CreateBook, for projects |
| Storage.MemStorage.CreateContactMessage | server/storage.ts:353-358 | The message is the input with the next contact id and `createdAt` = now; it is stored under that fresh id and appended to the listing; the counter goes up by one; the invariant is kept |
| Storage.MemStorage.GetProfile | server/storage.ts:361-363 | The row under `profileId`; a valid store always has it, and its id is 1 |
| Storage.MemStorage.UpdateProfile | server/storage.ts:365-369 | An upsert: the profile becomes the input with id 1, it replaces the one stored row, the table holds only it, and a get returns it |
| Storage.FirstWithUsername | server/storage.ts:275-279 | Searching a numbered user table in insertion order finds nothing exactly when no stored user has the name; otherwise it finds the stored user with that name and the smallest id |
| Storage.ProfileUpsert | server/storage.ts:365-369 | Setting the fixed key of a one-row profile table leaves a one-row table holding only the new profile |
| StorageScenarios.DuplicateUsernames | server/storage.ts:275-286 | On a fresh store, `createUser` twice with the same username gives ids 1 and 2; both rows are listed, so the table breaks the declared uniqueness of usernames; `getUserByUsername` returns the first |
| StorageScenarios.StoreWithTwoUsers | server/storage.ts:281-286 | Two `createUser` calls on a fresh store give the inputs with ids 1 and 2, stored under those keys in that order |
| StorageScenarios.Namesakes | server/storage.ts:275-279 | A users table holding two namesakes under ids 1 and 2 lists both in that order, and the search by the name finds the first |
| StorageScenarios.SeededBooks | server/storage.ts:243-246 | A fresh store lists three books with ids 1, 2 and 3, book i carrying the i-th book stamp of the seed arrays, starting with "Atomic Habits"; book 4 is undefined |
| StorageScenarios.FirstCreatedBook | server/storage.ts:297-302 | The first book created on a fresh store gets id 4 and the creation time, and keeps every input field |
| StorageScenarios.FirstCreatedProject | server/storage.ts:345-350 | The first project created on a fresh store gets id 5 and the creation time, and keeps every input field |
| StorageScenarios.ProfileUpdatedTwice | server/storage.ts:365-369 | After two updates, the store's profile is the second update with id 1 |
| OrderedMaps.TableInsert | server/storage.ts:297-302 | Storing a row under a table's next id uses a fresh key, keeps the table invariant with the counter one higher, makes the row readable under its id, leaves every other key as it was, and appends the row to the listing |
| OrderedMaps.TableValues | server/storage.ts:289-291 | The listing of a numbered table has one entry per stored row, holds exactly the stored rows, and is in strictly increasing id order |
| OrderedMaps.TableOrdered | server/storage.ts:289-291 | In a listing, a row with a smaller id comes earlier |
| Schema.NewUser | server/storage.ts:281-286 | The user row keeps the inserted username and password and takes the given id |
| Schema.NewBook | shared/schema.ts:20-38 | The row keeps every insert field unchanged, and its id and `createdAt` are the server's |
| Schema.NewEvent | shared/schema.ts:41-58 | As NewBook, for events |
| Schema.NewBlog | shared/schema.ts:61-79 | As NewBook, for blog posts |
| Schema.NewProject | shared/schema.ts:82-100 | As NewBook, for projects; an omitted `featured` stays omitted in the row |
| Schema.FeaturedColumn | shared/schema.ts:90 | The database column default, which MemStorage does not apply: a database table would read `featured` back as false when the insert omitted it, and otherwise as the inserted value |
| Schema.NewContactMessage | shared/schema.ts:103-118 | As NewBook, for contact messages |
| Schema.NewProfile | shared/schema.ts:121-143 | The profile keeps every insert field, including the social links, and takes the given id |
| Schema.StringField | shared/schema.ts:112-115 | A key passes exactly when it holds a string, and then yields it; otherwise the issue names the key as Required when it is missing, and as InvalidType when it holds another value |
| Schema.ParseInsertContact | shared/schema.ts:112-115 | The body is accepted exactly when it is an object whose name, email, subject and message hold strings; it then yields those four strings, of any length, and drops other keys; a non-object body is one issue; otherwise the result is the issues of the failing keys in schema order |
| Schema.ContactIssuesExact | shared/schema.ts:112-115 | For a rejected object, every issue names a schema key that does not hold a string, and every such key is named |
| Routes.ItemRoute | server/routes.ts:36-52 | 400 exactly when parseInt gives NaN; 500 exactly when the lookup rejects; 404 exactly when the parsed id is not stored; 200 exactly when it is, with that row; each status carries its handler's message |
| Routes.ItemRouteServesStored | server/routes.ts:36-52 | Every stored id, written in decimal, is served with 200 and its row |
| Routes.ItemRouteMissing | server/routes.ts:36-52 | An unused id, written in decimal and followed by anything parseInt stops at, is a 404 |
| Routes.BookRoute | server/routes.ts:36-52 | `GET /api/books/:id`: 400 "Invalid book ID" on NaN, 500 "Error fetching book" on a rejection, then 404 "Book not found" or 200 with the book of that id as `getBook` returns it |
| Routes.BookRouteServesStored | server/routes.ts:36-52 | Every book a valid store holds is served at its decimal id |
| Routes.EventRoute | server/routes.ts:65-81 | As BookRoute, for `GET /api/events/:id` with the event messages |
| Routes.BlogRoute | server/routes.ts:94-110 | As BookRoute, for `GET /api/blogs/:id` with the blog messages |
| Routes.ProjectRoute | server/routes.ts:123-139 | As BookRoute, for `GET /api/projects/:id` with the project messages |
| Routes.ListRoute | server/routes.ts:26-33 | A listing is a 500 with the handler's message exactly when the storage call rejects, and otherwise a 200 with the rows |
| Routes.BooksRoute | server/routes.ts:26-33 | `GET /api/books`: 200 with `getBooks()`, or 500 "Error fetching books" |
| Routes.EventsRoute | server/routes.ts:55-62 | `GET /api/events`: 200 with `getEvents()`, or 500 "Error fetching events" |
| Routes.BlogsRoute | server/routes.ts:84-91 | `GET /api/blogs`: 200 with `getBlogs()`, or 500 "Error fetching blogs" |
| Routes.ProjectsRoute | server/routes.ts:113-120 | `GET /api/projects`: 200 with `getProjects()`, or 500 "Error fetching projects" |
| Routes.ProfileRoute | server/routes.ts:13-23 | 500 exactly on a rejection; 404 "Profile not found" exactly when there is no profile; otherwise 200 with it; on a valid in-memory store it is always a 200 with profile 1 |
| Routes.ContactRoute | server/routes.ts:142-162 | A body the schema rejects is a 400 carrying its issues and stores nothing; a rejected storage call is a 500 "Error submitting contact form"; otherwise the message is stored under the next contact id and the reply is 201 with the thank-you text and that id; the store invariant is kept |
| JsBuiltins.Trim | client/src/pages/admin-dashboard.tsx:33 | The result is no longer than the input and neither starts nor ends with white space |
| JsBuiltins.TrimInfix | client/src/pages/admin-dashboard.tsx:33 | The result of trim is a contiguous part of the input with only white space before and after it |
| JsBuiltins.TrimStartSkips | client/src/pages/admin-dashboard.tsx:33 | Any run of leading white space is removed |
| JsBuiltins.TrimEndSkips | client/src/pages/admin-dashboard.tsx:33 | Any run of trailing white space is removed |
| JsBuiltins.Split | client/src/pages/admin-dashboard.tsx:33 | Splitting on a character gives one more piece than the character occurs, no piece holds it, and joining the pieces with it gives the input back |
| JsBuiltins.SplitJoin | client/src/pages/admin-dashboard.tsx:33 | Splitting pieces joined by a character no piece holds gives the pieces back |
| JsBuiltins.Find | server/storage.ts:276-278 | Undefined exactly when no element passes the test; otherwise a passing element with no passing element before it |
| JsBuiltins.FindIndex | server/storage.ts:276-278 | A found element is at a position with no passing element before it |
| JsBuiltins.Utf16Length | client/src/components/home/Contact.tsx:29 | The length in code units lies between the number of characters and twice it, and equals it for text inside the Basic Multilingual Plane |
| JsBuiltins.DecimalString | server/routes.ts:38 | A decimal numeral: at least one digit, only digits, and no leading zero |
| JsBuiltins.DecimalStringValue | server/routes.ts:38 | The digits of the numeral of n have value n |
| JsBuiltins.DecimalPrefix | server/routes.ts:38 | parseInt reads a run of decimal digits up to the first non-digit, unless a lone 0 is followed by x |
| JsBuiltins.ParseIntDecimal | server/routes.ts:38 | parseInt of the decimal numeral of n is n |
| JsBuiltins.ParseUnsignedDecimal | server/routes.ts:38 | The digits of the decimal numeral of n, after any sign, read as n |
| JsBuiltins.ParseIntNegativeDecimal | server/routes.ts:38 | parseInt of minus a numeral is its negation |
| JsBuiltins.NegatedParse | server/routes.ts:38 | A leading minus negates whatever the rest parses to, and NaN stays NaN |
| JsBuiltins.ParseIntLeadingWhitespace | server/routes.ts:38 | Leading white space does not change what parseInt reads |
| JsBuiltins.ParseIntTrailingLetters | server/routes.ts:38 | "12abc" reads as 12 |
| JsBuiltins.ParseIntFraction | server/routes.ts:38 | "1.5" reads as 1 |
| JsBuiltins.ParseIntMinus | server/routes.ts:38 | "-7" reads as -7 |
| JsBuiltins.ParseIntHex | server/routes.ts:38 | "0x1A" reads as 26 |
| JsBuiltins.ParseIntLetters | server/routes.ts:38-41 | "abc" is NaN, so the handler answers 400 |
| JsBuiltins.ParseIntEmpty | server/routes.ts:38-41 | "" is NaN |
| JsBuiltins.ParseIntBareHex | server/routes.ts:38-41 | "0x" with no hex digits is NaN |
| AdminForms.TagsFromInput | client/src/pages/admin-dashboard.tsx:33 | No tagsInput, or an empty one, gives no tags; otherwise there is one tag per comma-separated piece, in order, each the trimmed piece, with empty pieces kept |
| AdminForms.TagsClean | client/src/pages/admin-dashboard.tsx:33 | No tag holds a comma, and no tag starts or ends with white space |
| AdminForms.TagsRoundTrip | client/src/pages/admin-dashboard.tsx:33 | Clean tags joined with commas read back as the same tags, unless the text is empty |
| AdminForms.TagsStable | client/src/pages/admin-dashboard.tsx:33 | The transform's tags, written back as text and read again, are unchanged |
| AdminForms.TagsOfPieces | client/src/pages/admin-dashboard.tsx:33 | Comma-joined comma-free pieces read as those pieces, each trimmed |
| AdminForms.TrimAround | client/src/pages/admin-dashboard.tsx:33 | A clean tag typed with white space on either side trims to the bare tag |
| AdminForms.TagsIgnoreBlanks | client/src/pages/admin-dashboard.tsx:33 | White space around the comma-separated tags does not change the tags read |
| AdminForms.TagsSpaced | client/src/pages/admin-dashboard.tsx:33 | "a, b ,c" gives ["a", "b", "c"] |
| AdminForms.TagsEmptyPiece | client/src/pages/admin-dashboard.tsx:33 | "a,,b" gives ["a", "", "b"]: the empty piece is kept |
| AdminForms.TagsBlank | client/src/pages/admin-dashboard.tsx:33 | Text of blanks only gives one empty tag, not none |
| AdminForms.BookFormValues | client/src/pages/admin-dashboard.tsx:26-35 | The submitted book has the tags computed from tagsInput; every other field is the form's |
| AdminForms.EventFormValues | client/src/pages/admin-dashboard.tsx:37-46 | The same for the submitted event |
| AdminForms.ProjectFormValues | client/src/pages/admin-dashboard.tsx:52-61 | The same for the submitted project |
| ContactForm.MinLength | client/src/components/home/Contact.tsx:29 | A text passes a minimum-length check exactly when its UTF-16 length reaches the minimum; otherwise it reports that check's one message |
| ContactForm.EmailFormat | client/src/components/home/Contact.tsx:30 | The email passes exactly when the email test accepts it; otherwise it reports "Please enter a valid email address." |
| ContactForm.FormErrors | client/src/components/home/Contact.tsx:28-33 | Each of the four messages is shown exactly when its own check fails: name under 2, subject under 5 and message under 10 code units, or an email the test refuses |
| ContactForm.FormErrorsKnown | client/src/components/home/Contact.tsx:28-33 | No other message is shown, and there are at most four |
| ContactForm.Validate | client/src/components/home/Contact.tsx:28-33 | The form is accepted exactly when all four checks pass, and it then yields the data unchanged; otherwise it yields the non-empty list of messages |
| ContactForm.ValidateIffNoErrors | client/src/components/home/Contact.tsx:28-33 | A form is accepted exactly when it shows no message |
| ContactForm.ErrorsIndependent | client/src/components/home/Contact.tsx:28-33 | A field's message depends on that field only |
| ContactForm.LengthBoundaries | client/src/components/home/Contact.tsx:29-32 | On text inside the Basic Multilingual Plane, exactly 2, 5 and 10 characters pass and one fewer fails |
| ContactForm.AstralNamePasses | client/src/components/home/Contact.tsx:29 | A one-character name outside the Basic Multilingual Plane counts as two code units and passes |
| ContactForm.ToJson | client/src/components/home/Contact.tsx:28-33 | The posted body is an object with exactly the four form keys |
| ContactForm.ServerAcceptsAnyForm | shared/schema.ts:112-115 | The server's schema accepts any four strings the form posts, including ones the form refuses, and stores them unchanged |
| ContactForm.SubmittedIsStored | server/routes.ts:145 | A form the client accepts is accepted by the server with the same four values |
| ContactForm.ShortNameOnlyClientRefuses | client/src/components/home/Contact.tsx:29 | A name under 2 code units is refused by the form with its message but accepted by the server's schema |

## Left out

- Promises and `async`: every storage call is modelled as completing at once. The in-memory store never rejects. The handlers' `catch` paths are reached through a `fails` parameter standing for a rejecting storage call.
- The clock: the `new Date()` of every create is its `now` parameter. The thirteen `new Date()` calls in the seed arrays run when the module loads, not in the constructor; their values are the constructor's `seedStamps` parameter, one stamp per seed row, with no relation assumed between them.
- JavaScript number semantics: ids and parsed numbers are unbounded integers. Rounding above 2^53, `Infinity` and `-0` (which `parseInt("-0")` gives, here 0) are not modelled.
- JsBuiltins.DecimalPrefix: only decimal text is characterised in general; other radix-16 inputs are covered only by the worked examples.
- ContactForm.FormErrors: the order in which messages are listed is not stated, only which messages appear.
- Routes.ContactRoute: a 400 carries the list of schema issues, not the message text that `fromZodError` builds from them.
- The seed data's long texts: descriptions, article bodies, the biography and the image URLs (book, blog and project cover images and the profile avatar) are empty strings in the model. Titles, authors, years, dates, places, categories, tags, flags and every link (summary links, event and blog links, project demo and code links, social links) are the seeded ones.
- zod's email pattern: it is the function parameter `isEmail`, so the contact-form properties hold for any email test.
- Strings: a Dafny `string` holds Unicode scalar values, so a JavaScript string with a lone surrogate (which a JSON body can carry as `"\uD800"`) cannot be represented.
- Aliasing: stored rows are values. `getBooks`, `createBook` and the other reads and creates hand out the stored objects themselves, so a caller that mutated one would change the store; the model does not capture that sharing.
- The database column default of `featured` is modelled only as `Schema.FeaturedColumn`. The in-memory store keeps an omitted `featured` omitted, as the spread does.
- The `unique()` constraint on `users.username` is stated as `Schema.UsernamesUnique` but is not enforced: `MemStorage` does not enforce it, and the model follows `MemStorage`.
- The blog form has no transform: its datatype keeps `tagsInput` beside the insert fields and nothing reads it.
- JSON numbers in request bodies are integers. A body's parse is modelled only up to the parsed value; a malformed JSON text is outside the handler.
- The React components, the admin login and sessions, the `IStorage` interface as a type, and the database seed script are not part of this model.
