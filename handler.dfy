/**
 * The in-memory book store behind the five HTTP handlers of the bookshelf
 * service. The shared `books` array is the `books` field of a `BookStore`;
 * each handler is a member of that class that returns the response body and
 * status code it would hand to the HTTP layer. The fresh book id (a 16-character
 * random token in the service) and the current ISO timestamp are parameters.
 */
module Handler {
  import opened Wrappers
  import opened Js

  /** The fields a create or update request body may carry; absent ones are `Undefined`. */
  datatype Payload = Payload(
    name: Value, year: Value, author: Value, summary: Value, publisher: Value,
    pageCount: Value, readPage: Value, reading: Value)

  /** One stored book record. Every client-supplied field is kept as the value it was given. */
  datatype Book = Book(
    id: string, name: Value, year: Value, author: Value, summary: Value, publisher: Value,
    pageCount: Value, readPage: Value, finished: bool, reading: Value,
    insertedAt: string, updatedAt: string)

  /** The projection the list handler returns for each record. */
  datatype BookSummary = BookSummary(id: string, name: Value, publisher: Value)

  datatype Status = Success | Fail

  /** The `data` member of a response body, when there is one. */
  datatype Data = NoData | BookIdData(bookId: string) | BooksData(books: seq<BookSummary>) | BookData(book: Book)

  /** A response: HTTP status code, the body's `status`, its `message` (if any) and its `data`. */
  datatype Response = Response(code: int, status: Status, message: Option<string>, data: Data)

  const AddNameMessage := "Gagal menambahkan buku. Mohon isi nama buku"
  const AddPagesMessage := "Gagal menambahkan buku. readPage tidak boleh lebih besar dari pageCount"
  const AddedMessage := "Buku berhasil ditambahkan"
  const GetNotFoundMessage := "Buku tidak ditemukan"
  const UpdateNameMessage := "Gagal memperbarui buku. Mohon isi nama buku"
  const UpdatePagesMessage := "Gagal memperbarui buku. readPage tidak boleh lebih besar dari pageCount"
  const UpdateNotFoundMessage := "Gagal memperbarui buku. Id tidak ditemukan"
  const UpdatedMessage := "Buku berhasil diperbarui"
  const DeleteNotFoundMessage := "Catatan gagal dihapus. Id tidak ditemukan"
  const DeletedMessage := "Catatan berhasil dihapus"

  function FailWith(code: int, message: string): Response
  {
    Response(code, Fail, Some(message), NoData)
  }

  /** The first validation test: `!name || name.toString().trim() === ""`. */
  predicate NameRejected(name: Value)
  {
    !Truthy(name) || Trim(ToString(name)) == []
  }

  /** The second validation test: both are numbers and `readPage > pageCount`. */
  predicate PagesInconsistent(readPage: Value, pageCount: Value)
  {
    readPage.Num? && pageCount.Num? && readPage.n > pageCount.n
  }

  /**
   * Which names the first test rejects: the falsy ones, and strings made only of
   * white space. A non-zero number or `true` is accepted.
   */
  lemma NameRejectedIff(name: Value)
    ensures NameRejected(name) <==>
      name in {Undefined, Null, Num(0), Bool(false)}
      || (name.Str? && forall i :: 0 <= i < |name.s| ==> IsWhiteSpace(name.s[i]))
  {
    if Truthy(name) {
      ToStringBlankIff(name);
    }
  }

  /** Some record in `bs` has id `id`. */
  predicate HasId(bs: seq<Book>, id: string)
  {
    exists i :: 0 <= i < |bs| && bs[i].id == id
  }

  /** `bs.findIndex((book) => book.id === id)`: the first matching index, or -1. */
  function IndexOf(bs: seq<Book>, id: string): (r: int)
    ensures -1 <= r < |bs|
    ensures r == -1 <==> !HasId(bs, id)
    ensures 0 <= r ==> bs[r].id == id && forall j :: 0 <= j < r ==> bs[j].id != id
  {
    if bs == [] then -1
    else if bs[0].id == id then 0
    else
      var k := IndexOf(bs[1..], id);
      assert forall j :: 1 <= j < |bs| ==> bs[j] == bs[1..][j - 1];
      if k == -1 then -1 else k + 1
  }

  /** The scan `findIndex` performs, left to right. */
  method FindIndex(bs: seq<Book>, id: string) returns (index: int)
    ensures index == IndexOf(bs, id)
  {
    var i := 0;
    while i < |bs|
      invariant 0 <= i <= |bs|
      invariant forall j :: 0 <= j < i ==> bs[j].id != id
    {
      if bs[i].id == id {
        return i;
      }
      i := i + 1;
    }
    return -1;
  }

  /** `bs.find((b) => b.id === id)`: the record at the index `findIndex` reports. */
  function Find(bs: seq<Book>, id: string): (r: Option<Book>)
    ensures r == if IndexOf(bs, id) == -1 then None else Some(bs[IndexOf(bs, id)])
  {
    if bs == [] then None
    else if bs[0].id == id then Some(bs[0])
    else Find(bs[1..], id)
  }

  /** The list handler's projection `books.map(({ id, name, publisher }) => ...)`. */
  function Summaries(bs: seq<Book>): (r: seq<BookSummary>)
    ensures |r| == |bs|
    ensures forall i :: 0 <= i < |bs| ==> r[i] == BookSummary(bs[i].id, bs[i].name, bs[i].publisher)
  {
    if bs == [] then [] else [BookSummary(bs[0].id, bs[0].name, bs[0].publisher)] + Summaries(bs[1..])
  }

  /**
   * Appending a record with id `b.id` makes it the one `find` returns, unless an
   * older record already has that id: no collision check is made, so the older
   * record then shadows the new one.
   */
  lemma {:induction false} FindAfterAppend(bs: seq<Book>, b: Book)
    ensures Find(bs + [b], b.id) == if HasId(bs, b.id) then Find(bs, b.id) else Some(b)
  {
    if bs == [] {
    } else if bs[0].id == b.id {
      assert (bs + [b])[0] == bs[0];
    } else {
      assert (bs + [b])[1..] == bs[1..] + [b];
      FindAfterAppend(bs[1..], b);
      assert HasId(bs, b.id) ==> HasId(bs[1..], b.id) by {
        if HasId(bs, b.id) {
          var i :| 0 <= i < |bs| && bs[i].id == b.id;
          assert bs[1..][i - 1].id == b.id;
        }
      }
    }
  }

  /**
   * Replacing the record `find` returns by one with the same id makes the
   * replacement what `find` returns.
   */
  lemma {:induction false} FindAfterReplace(bs: seq<Book>, id: string, nb: Book)
    requires HasId(bs, id) && nb.id == id
    ensures Find(bs[IndexOf(bs, id) := nb], id) == Some(nb)
  {
    if bs[0].id != id {
      var i := IndexOf(bs, id);
      assert HasId(bs[1..], id) by {
        assert bs[1..][i - 1].id == id;
      }
      FindAfterReplace(bs[1..], id, nb);
      assert bs[i := nb][1..] == bs[1..][i - 1 := nb];
    }
  }

  /** A record whose derived and validated fields agree with its page counts. */
  predicate Consistent(b: Book)
  {
    b.finished == StrictEquals(b.pageCount, b.readPage) && !PagesInconsistent(b.readPage, b.pageCount)
  }

  class BookStore {
    /** The shared `books` array, in insertion order. */
    var books: seq<Book>

    /** Every stored record has `finished` in step with its page counts, and never more pages read than it has. */
    ghost predicate Valid()
      reads this
    {
      forall i :: 0 <= i < |books| ==> Consistent(books[i])
    }

    /** The store starts empty. */
    constructor ()
      ensures Valid() && books == []
    {
      books := [];
    }

    /** `POST /books` (addBookHandler). */
    method AddBook(p: Payload, id: string, now: string) returns (resp: Response)
      requires Valid()
      modifies this
      ensures Valid()
      ensures NameRejected(p.name) ==>
        books == old(books) && resp == FailWith(400, AddNameMessage)
      ensures !NameRejected(p.name) && PagesInconsistent(p.readPage, p.pageCount) ==>
        books == old(books) && resp == FailWith(400, AddPagesMessage)
      ensures !NameRejected(p.name) && !PagesInconsistent(p.readPage, p.pageCount) ==>
        && |books| == |old(books)| + 1
        && books[..|old(books)|] == old(books)
        && books[|old(books)|] == Book(id, p.name, p.year, p.author, p.summary, p.publisher,
                                       p.pageCount, p.readPage, p.pageCount == p.readPage,
                                       p.reading, now, now)
        && resp == Response(201, Success, Some(AddedMessage), BookIdData(id))
    {
      if !Truthy(p.name) || Trim(ToString(p.name)) == [] {
        return FailWith(400, AddNameMessage);
      }
      if p.readPage.Num? && p.pageCount.Num? && p.readPage.n > p.pageCount.n {
        return FailWith(400, AddPagesMessage);
      }
      var finished := StrictEquals(p.pageCount, p.readPage);
      var insertedAt := now;
      var updatedAt := insertedAt;
      var newBook := Book(id, p.name, p.year, p.author, p.summary, p.publisher,
                          p.pageCount, p.readPage, finished, p.reading, insertedAt, updatedAt);
      books := books + [newBook];
      resp := Response(201, Success, Some(AddedMessage), BookIdData(id));
    }

    /** `GET /books` (getAllBooksHandler): every record projected, no filtering, in store order. */
    function GetAllBooks(): (r: Response)
      reads this
      ensures r.code == 200 && r.status == Success && r.message == None && r.data.BooksData?
      ensures |r.data.books| == |books|
      ensures forall i :: 0 <= i < |books| ==>
        r.data.books[i] == BookSummary(books[i].id, books[i].name, books[i].publisher)
    {
      Response(200, Success, None, BooksData(Summaries(books)))
    }

    /** `GET /books/{bookId}` (getBookByIdHandler). */
    function GetBookById(bookId: string): (r: Response)
      requires Valid()
      reads this
      ensures r.data.BookData? ==> Consistent(r.data.book)
      ensures !HasId(books, bookId) ==> r == FailWith(404, GetNotFoundMessage)
      ensures HasId(books, bookId) ==> r == Response(200, Success, None, BookData(books[IndexOf(books, bookId)]))
    {
      match Find(books, bookId)
      case None => FailWith(404, GetNotFoundMessage)
      case Some(book) => Response(200, Success, None, BookData(book))
    }

    /**
     * `PUT /books/{bookId}` (updateBookByIdHandler), as written: when the id is
     * found the record is overwritten and 404 is answered; when it is not found
     * nothing changes and 200 is answered.
     */
    method UpdateBookById(bookId: string, p: Payload, now: string) returns (resp: Response)
      requires Valid()
      modifies this
      ensures Valid()
      ensures NameRejected(p.name) ==>
        books == old(books) && resp == FailWith(400, UpdateNameMessage)
      ensures !NameRejected(p.name) && PagesInconsistent(p.readPage, p.pageCount) ==>
        books == old(books) && resp == FailWith(400, UpdatePagesMessage)
      ensures !NameRejected(p.name) && !PagesInconsistent(p.readPage, p.pageCount) && !HasId(old(books), bookId) ==>
        books == old(books) && resp == Response(200, Success, Some(UpdatedMessage), NoData)
      ensures !NameRejected(p.name) && !PagesInconsistent(p.readPage, p.pageCount) && HasId(old(books), bookId) ==>
        var i := IndexOf(old(books), bookId);
        var b := old(books)[i];
        && books == old(books)[i := Book(b.id, p.name, p.year, p.author, p.summary, p.publisher,
                                        p.pageCount, p.readPage, p.pageCount == p.readPage,
                                        Bool(Truthy(p.reading)), b.insertedAt, now)]
        && resp == FailWith(404, UpdateNotFoundMessage)
    {
      if !Truthy(p.name) || Trim(ToString(p.name)) == [] {
        return FailWith(400, UpdateNameMessage);
      }
      if p.readPage.Num? && p.pageCount.Num? && p.readPage.n > p.pageCount.n {
        return FailWith(400, UpdatePagesMessage);
      }
      var index := FindIndex(books, bookId);
      if index != -1 {
        var updatedAt := now;
        var finished := StrictEquals(p.pageCount, p.readPage);
        var b := books[index];
        books := books[index := b.(name := p.name, year := p.year, author := p.author,
                                   summary := p.summary, publisher := p.publisher,
                                   pageCount := p.pageCount, readPage := p.readPage,
                                   reading := Bool(Truthy(p.reading)), finished := finished,
                                   updatedAt := updatedAt)];
        return FailWith(404, UpdateNotFoundMessage);
      }
      resp := Response(200, Success, Some(UpdatedMessage), NoData);
    }

    /**
     * `DELETE /books/{bookId}` (deleteBookByIdHandler), as written: when the id
     * is found nothing is removed and 404 is answered; when it is not found
     * `books.splice(-1, 1)` removes the last record (if any) and 200 is answered.
     */
    method DeleteBookById(bookId: string) returns (resp: Response)
      requires Valid()
      modifies this
      ensures Valid()
      ensures HasId(old(books), bookId) ==>
        books == old(books) && resp == FailWith(404, DeleteNotFoundMessage)
      ensures !HasId(old(books), bookId) ==>
        && books == (if old(books) == [] then [] else old(books)[..|old(books)| - 1])
        && resp == Response(200, Success, Some(DeletedMessage), NoData)
    {
      var index := FindIndex(books, bookId);
      if index != -1 {
        return FailWith(404, DeleteNotFoundMessage);
      }
      SpliceMinusOne(books);
      books := Splice(books, index, 1);
      resp := Response(200, Success, Some(DeletedMessage), NoData);
    }
  }
}
