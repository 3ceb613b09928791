/** Book records, request payloads and the queries the handlers run over the
    shared, ordered list of books (findIndex, filter by id, map to a summary,
    splice out one element). */
module BookRecords {

  datatype Option<+T> = None | Some(value: T)

  /** The ISO-8601 time stamps the server puts on a record; the model never
      looks inside them. */
  type Timestamp = string

  /** One stored book. `name` is optional because the handlers copy whatever
      the request carried, including nothing. */
  datatype Book = Book(
    id: string,
    name: Option<string>,
    year: int,
    author: string,
    summary: string,
    publisher: string,
    pageCount: int,
    readPage: int,
    finished: bool,
    reading: bool,
    insertedAt: Timestamp,
    updatedAt: Timestamp)

  /** The fields a create or update request carries in its body. */
  datatype Payload = Payload(
    name: Option<string>,
    year: int,
    author: string,
    summary: string,
    publisher: string,
    pageCount: int,
    readPage: int,
    reading: bool)

  /** The `{id, name, publisher}` projection the list handler returns. */
  datatype Summary = Summary(id: string, name: Option<string>, publisher: string)

  /** A name is present unless it is absent or the empty string (`!name`). */
  predicate HasName(name: Option<string>) {
    name.Some? && name.value != ""
  }

  /** The user-editable fields of `b` are exactly those of `p`. */
  predicate Carries(b: Book, p: Payload) {
    b.name == p.name && b.year == p.year && b.author == p.author &&
    b.summary == p.summary && b.publisher == p.publisher &&
    b.pageCount == p.pageCount && b.readPage == p.readPage && b.reading == p.reading
  }

  /** Every stored book has read no more pages than it has. */
  predicate PagesConsistent(books: seq<Book>) {
    forall k :: 0 <= k < |books| ==> books[k].readPage <= books[k].pageCount
  }

  /** The record a create request builds, before it is validated. */
  function NewBook(id: string, now: Timestamp, p: Payload): (b: Book)
    ensures b.id == id && Carries(b, p)
    ensures b.insertedAt == now && b.updatedAt == b.insertedAt
    ensures b.finished <==> p.readPage == p.pageCount
  {
    Book(id, p.name, p.year, p.author, p.summary, p.publisher,
         p.pageCount, p.readPage, p.pageCount == p.readPage, p.reading, now, now)
  }

  /** The record an update request leaves behind: the old record spread, then
      overwritten by the payload and the new time stamp. `finished` is not
      recomputed. */
  function Revised(b: Book, p: Payload, now: Timestamp): (r: Book)
    ensures r.id == b.id && r.insertedAt == b.insertedAt && r.finished == b.finished
    ensures Carries(r, p) && r.updatedAt == now
  {
    b.(name := p.name, year := p.year, author := p.author, summary := p.summary,
       publisher := p.publisher, pageCount := p.pageCount, readPage := p.readPage,
       reading := p.reading, updatedAt := now)
  }

  function Project(b: Book): Summary {
    Summary(b.id, b.name, b.publisher)
  }

  /** `books.findIndex(bk => bk.id === id)`: the first position holding `id`,
      or -1 when there is none. */
  function IndexOf(books: seq<Book>, id: string): (i: int)
    ensures -1 <= i < |books|
    ensures i == -1 <==> forall k :: 0 <= k < |books| ==> books[k].id != id
    ensures 0 <= i ==> books[i].id == id && forall k :: 0 <= k < i ==> books[k].id != id
  {
    if |books| == 0 then -1
    else if books[0].id == id then 0
    else
      var j := IndexOf(books[1..], id);
      if j == -1 then -1 else j + 1
  }

  /** `books.filter(bk => bk.id === id)`: the books holding `id`, in store order. */
  function WithId(books: seq<Book>, id: string): (r: seq<Book>)
    ensures |r| <= |books|
  {
    if |books| == 0 then []
    else (if books[0].id == id then [books[0]] else []) + WithId(books[1..], id)
  }

  /** The id filter keeps every book holding `id` and nothing else. */
  lemma {:induction false} WithIdMembers(books: seq<Book>, id: string, b: Book)
    ensures b in WithId(books, id) <==> b in books && b.id == id
  {
    if |books| > 0 {
      assert books == [books[0]] + books[1..];
      WithIdMembers(books[1..], id, b);
    }
  }

  /** The id filter is empty exactly when findIndex finds nothing, and
      otherwise starts with the book findIndex finds. */
  lemma {:induction false} WithIdFirst(books: seq<Book>, id: string)
    ensures WithId(books, id) == [] <==> IndexOf(books, id) == -1
    ensures WithId(books, id) != [] ==> WithId(books, id)[0] == books[IndexOf(books, id)]
  {
    if |books| > 0 {
      WithIdFirst(books[1..], id);
    }
  }

  /** `books.map(book => ({id, name, publisher}))`. */
  function Summaries(books: seq<Book>): (r: seq<Summary>)
    ensures |r| == |books|
    ensures forall k :: 0 <= k < |books| ==>
      r[k].id == books[k].id && r[k].name == books[k].name && r[k].publisher == books[k].publisher
  {
    if |books| == 0 then [] else [Project(books[0])] + Summaries(books[1..])
  }

  /** `books.splice(i, 1)`: drop position `i`, keep the rest in order. */
  function RemoveAt(books: seq<Book>, i: nat): (r: seq<Book>)
    requires i < |books|
    ensures |r| == |books| - 1
    ensures forall k :: 0 <= k < i ==> r[k] == books[k]
    ensures forall k :: i <= k < |r| ==> r[k] == books[k + 1]
  {
    books[..i] + books[i + 1..]
  }

  /** Splicing out one position loses exactly the book held there. */
  lemma RemoveAtPermutation(books: seq<Book>, i: nat)
    requires i < |books|
    ensures multiset(RemoveAt(books, i)) + multiset{books[i]} == multiset(books)
  {
    assert books == books[..i] + [books[i]] + books[i + 1..];
  }

  /** Filtering by id distributes over concatenation. */
  lemma {:induction false} WithIdConcat(a: seq<Book>, b: seq<Book>, id: string)
    ensures WithId(a + b, id) == WithId(a, id) + WithId(b, id)
  {
    if |a| > 0 {
      assert (a + b)[1..] == a[1..] + b;
      WithIdConcat(a[1..], b, id);
    } else {
      assert a + b == b;
    }
  }

  /** Filtering a store whose first match is `x` yields `x` followed by the
      matches after it. */
  lemma WithIdSplit(before: seq<Book>, x: Book, after: seq<Book>, id: string)
    requires IndexOf(before, id) == -1 && x.id == id
    ensures WithId(before + [x] + after, id) == [x] + WithId(before + after, id)
  {
    WithIdFirst(before, id);
    assert WithId([x], id) == [x] by {
      assert [x][1..] == [];
    }
    WithIdConcat(before, after, id);
    WithIdConcat([x], after, id);
    WithIdConcat(before, [x] + after, id);
    assert before + [x] + after == before + ([x] + after);
  }

  /** The id filter of a store is the book that findIndex finds, followed by
      the id filter of the store with that book spliced out. */
  lemma WithIdAfterRemove(books: seq<Book>, id: string)
    requires IndexOf(books, id) != -1
    ensures WithId(books, id) == [books[IndexOf(books, id)]] + WithId(RemoveAt(books, IndexOf(books, id)), id)
  {
    var i := IndexOf(books, id);
    var before := books[..i];
    NoMatchBefore(books, id);
    var after := books[i + 1..];
    assert RemoveAt(books, i) == before + after;
    assert books == before + [books[i]] + after;
    WithIdSplit(before, books[i], after, id);
  }

  /** No book before the one findIndex finds holds the id. */
  lemma NoMatchBefore(books: seq<Book>, id: string)
    requires IndexOf(books, id) != -1
    ensures IndexOf(books[..IndexOf(books, id)], id) == -1
  {
  }
}
