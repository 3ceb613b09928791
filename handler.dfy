/** The five request handlers of the book service, over one shared, ordered
    list of books. The three handlers that change the list are methods of
    `Bookshelf`; the two that only read it are functions of its contents. */
module Handler {
  import opened BookRecords

  datatype Status = Success | Fail | Error

  /** What a response message says, without its wording. */
  datatype Message =
    | NoMessage
    | NameRequired          // the name is absent or empty
    | ReadPageTooLarge      // readPage is greater than pageCount
    | NotFound              // no stored book has the requested id
    | Added
    | AddFailed
    | Updated
    | Deleted

  datatype Data =
    | NoData
    | NewId(bookId: string)
    | OneBook(book: Book)
    | BookList(entries: seq<Summary>)

  /** The response envelope together with its HTTP status code. */
  datatype Response = Response(code: int, status: Status, message: Message, data: Data)

  /** The query string of a list request; a filter is present when its key is. */
  datatype Query = Query(name: Option<string>, reading: Option<string>, finished: Option<string>)

  /** The exceptions a handler can throw: the ReferenceError of a filtered
      list request, and the TypeError of destructuring an absent or null
      request body. */
  datatype JsError = ReferenceError | TypeError

  /** How a handler ends: with a response, or by throwing. */
  datatype Outcome = Returned(response: Response) | Threw(error: JsError)

  predicate HasFilter(q: Query) {
    q.name.Some? || q.reading.Some? || q.finished.Some?
  }

  /** The shared list of books, changed in place by the create, update and
      delete handlers. */
  class Bookshelf {
    var books: seq<Book>

    constructor (initial: seq<Book>)
      ensures books == initial
    {
      books := initial;
    }

    /** The create handler. `id` and `now` stand for the generated identifier
        and the current time; `body` is the request body, `None` when it is
        absent or null. Destructuring an absent body throws before anything
        else happens. Otherwise the record is built first; a missing name is
        refused before the page counts are looked at; only a valid record is
        appended. */
    method Add(id: string, now: Timestamp, body: Option<Payload>) returns (r: Outcome)
      modifies this
      ensures body.None? ==> r == Threw(TypeError) && books == old(books)
      ensures body.Some? && !HasName(body.value.name) ==>
        r == Returned(Response(400, Fail, NameRequired, NoData)) && books == old(books)
      ensures body.Some? && HasName(body.value.name) && body.value.readPage > body.value.pageCount ==>
        r == Returned(Response(400, Fail, ReadPageTooLarge, NoData)) && books == old(books)
      ensures body.Some? && HasName(body.value.name) && body.value.readPage <= body.value.pageCount ==>
        r == Returned(Response(201, Success, Added, NewId(id))) &&
        books == old(books) + [NewBook(id, now, body.value)]
      ensures r.Returned? ==> r.response.code != 500
      ensures PagesConsistent(old(books)) ==> PagesConsistent(books)
    {
      if body.None? {
        return Threw(TypeError);
      }
      var p := body.value;
      var newBook := NewBook(id, now, p);
      if !HasName(p.name) {
        return Returned(Response(400, Fail, NameRequired, NoData));
      } else if p.readPage > p.pageCount {
        return Returned(Response(400, Fail, ReadPageTooLarge, NoData));
      }
      books := books + [newBook];
      assert books[|books| - 1].id == id;
      WithIdFirst(books, id);
      var isSuccess := WithId(books, id) != [];
      r := if isSuccess then Returned(Response(201, Success, Added, NewId(id)))
           else Returned(Response(500, Error, AddFailed, NoData));
    }

    /** The update handler. An absent or null body throws when it is
        destructured. Otherwise it checks, in this order: a missing name (even
        for an unknown id), an unknown id, then the page counts. On success
        only the first book with `bookId` changes. */
    method Edit(bookId: string, now: Timestamp, body: Option<Payload>) returns (r: Outcome)
      modifies this
      ensures body.None? ==> r == Threw(TypeError) && books == old(books)
      ensures body.Some? && !HasName(body.value.name) ==>
        r == Returned(Response(400, Fail, NameRequired, NoData)) && books == old(books)
      ensures body.Some? && HasName(body.value.name) && IndexOf(old(books), bookId) == -1 ==>
        r == Returned(Response(404, Fail, NotFound, NoData)) && books == old(books)
      ensures body.Some? && HasName(body.value.name) && IndexOf(old(books), bookId) != -1 &&
              body.value.readPage > body.value.pageCount ==>
        r == Returned(Response(400, Fail, ReadPageTooLarge, NoData)) && books == old(books)
      ensures body.Some? && HasName(body.value.name) && IndexOf(old(books), bookId) != -1 &&
              body.value.readPage <= body.value.pageCount ==>
        var i := IndexOf(old(books), bookId);
        r == Returned(Response(200, Success, Updated, NoData)) &&
        books == old(books)[i := Revised(old(books)[i], body.value, now)]
      ensures |books| == |old(books)|
      ensures forall k :: 0 <= k < |books| && k != IndexOf(old(books), bookId) ==> books[k] == old(books)[k]
      ensures PagesConsistent(old(books)) ==> PagesConsistent(books)
    {
      if body.None? {
        return Threw(TypeError);
      }
      var p := body.value;
      var index := IndexOf(books, bookId);
      if !HasName(p.name) {
        return Returned(Response(400, Fail, NameRequired, NoData));
      } else if index == -1 {
        return Returned(Response(404, Fail, NotFound, NoData));
      } else if p.readPage > p.pageCount {
        return Returned(Response(400, Fail, ReadPageTooLarge, NoData));
      }
      books := books[index := Revised(books[index], p, now)];
      r := Returned(Response(200, Success, Updated, NoData));
    }

    /** The delete handler: splices out the first book with `bookId`. */
    method Delete(bookId: string) returns (r: Response)
      modifies this
      ensures IndexOf(old(books), bookId) == -1 ==>
        r == Response(404, Fail, NotFound, NoData) && books == old(books)
      ensures IndexOf(old(books), bookId) != -1 ==>
        r == Response(200, Success, Deleted, NoData) &&
        books == RemoveAt(old(books), IndexOf(old(books), bookId))
      ensures PagesConsistent(old(books)) ==> PagesConsistent(books)
    {
      var index := IndexOf(books, bookId);
      if index == -1 {
        return Response(404, Fail, NotFound, NoData);
      }
      books := RemoveAt(books, index);
      r := Response(200, Success, Deleted, NoData);
    }
  }

  /** The get-one handler over the stored books: the first book of the id
      filter, or 404 when the filter is empty. */
  function GetSpecific(books: seq<Book>, bookId: string): (r: Response)
    ensures IndexOf(books, bookId) == -1 ==> r == Response(404, Fail, NotFound, NoData)
    ensures IndexOf(books, bookId) != -1 ==>
      r == Response(200, Success, NoMessage, OneBook(books[IndexOf(books, bookId)]))
  {
    WithIdFirst(books, bookId);
    var found := WithId(books, bookId);
    if |found| == 0 then Response(404, Fail, NotFound, NoData)
    else Response(200, Success, NoMessage, OneBook(found[0]))
  }

  /** The list handler over the stored books. Every filtered branch declares a
      block-local `books` whose initializer reads that same binding, so it
      throws before producing a response; only the unfiltered branch answers. */
  function GetAll(books: seq<Book>, q: Query): (r: Outcome)
    ensures HasFilter(q) ==> r == Threw(ReferenceError)
    ensures !HasFilter(q) ==> r.Returned?
    ensures r.Returned? ==>
      r.response.code == 200 && r.response.status == Success &&
      r.response.data.BookList? && |r.response.data.entries| == |books| &&
      forall k :: 0 <= k < |books| ==>
        r.response.data.entries[k] == Summary(books[k].id, books[k].name, books[k].publisher)
  {
    if HasFilter(q) then Threw(ReferenceError)
    else Returned(Response(200, Success, NoMessage, BookList(Summaries(books))))
  }

  /** A book created under an id that no stored book has is what a later
      get-one request for that id returns; its `finished` flag says whether
      all its pages were read. */
  lemma {:induction false} AddThenGet(books: seq<Book>, id: string, now: Timestamp, p: Payload)
    requires IndexOf(books, id) == -1
    ensures var r := GetSpecific(books + [NewBook(id, now, p)], id);
      r.code == 200 && r.data.OneBook? && r.data.book.id == id &&
      Carries(r.data.book, p) && (r.data.book.finished <==> p.readPage == p.pageCount)
  {
    var s := books + [NewBook(id, now, p)];
    assert s[|books|].id == id;
    assert forall k :: 0 <= k < |books| ==> s[k] == books[k];
  }

  /** Deleting the only book with an id makes a later get-one request for
      that id answer 404. */
  lemma DeleteThenGet(books: seq<Book>, id: string)
    requires |WithId(books, id)| == 1
    ensures var i := IndexOf(books, id);
      0 <= i && GetSpecific(RemoveAt(books, i), id).code == 404
  {
    WithIdFirst(books, id);
    WithIdAfterRemove(books, id);
    WithIdFirst(RemoveAt(books, IndexOf(books, id)), id);
  }

  /** After a successful update, a get-one request for the same id returns
      the revised record: same id and insertion time, new fields and update
      time, and the old `finished` flag. */
  lemma EditThenGet(books: seq<Book>, bookId: string, now: Timestamp, p: Payload)
    requires IndexOf(books, bookId) != -1
    ensures var i := IndexOf(books, bookId);
      var r := GetSpecific(books[i := Revised(books[i], p, now)], bookId);
      r.code == 200 && r.data.OneBook? &&
      r.data.book.id == bookId && r.data.book.insertedAt == books[i].insertedAt &&
      r.data.book.finished == books[i].finished &&
      Carries(r.data.book, p) && r.data.book.updatedAt == now
  {
  }

  /** After a successful create, an unfiltered list request shows the earlier
      entries in store order, then the new book's id, name and publisher. */
  lemma AddThenList(books: seq<Book>, id: string, now: Timestamp, p: Payload)
    ensures var r := GetAll(books + [NewBook(id, now, p)], Query(None, None, None));
      r.Returned? && r.response.data.BookList? &&
      r.response.data.entries == Summaries(books) + [Summary(id, p.name, p.publisher)]
  {
  }
}
