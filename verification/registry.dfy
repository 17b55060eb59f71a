/** The state shared by the three classes of the library: the class-level
    registries `Author.all`, `Book.all` and `Contract.all`, the records they
    hold, the dynamically typed arguments callers pass in, and the one scan
    over the contract registry that every relationship query is built from.

    Python object identity is replaced by the position of an object in its
    registry: an `AuthorId` is an index into `State.authors`, and so on. Since
    the registries are append-only, a position never changes its meaning. */
module Registry {

  /** Position of an author in `State.authors`. */
  type AuthorId = nat

  /** Position of a book in `State.books`. */
  type BookId = nat

  /** Position of a contract in `State.contracts`. */
  type ContractId = nat

  /** An argument as the caller passed it. Only the distinctions the
      `isinstance` checks make are kept. */
  datatype Value =
    | Str(str: string)
    | Int(n: int)
    | AuthorRef(author: AuthorId)
    | BookRef(book: BookId)
    | Other

  datatype Author = Author(name: string)

  datatype Book = Book(title: string)

  /** The join record: one author, one book, a date and a royalty amount. */
  datatype Contract = Contract(author: AuthorId, book: BookId, date: string, royalties: int)

  /** The three registries, each in insertion order. */
  datatype State = State(authors: seq<Author>, books: seq<Book>, contracts: seq<Contract>)
  {
    /** Every registered contract refers to a registered author and book. */
    predicate Valid()
    {
      forall i :: 0 <= i < |contracts| ==>
        contracts[i].author < |authors| && contracts[i].book < |books|
    }
  }

  /** The registries as the module is first imported: all empty. */
  const Initial: State := State([], [], [])

  /** Which validation raised. The messages themselves are not modelled. */
  datatype Error =
    | NameNotString
    | TitleNotString
    | NotAnAuthor
    | NotABook
    | DateNotString
    | RoyaltiesNotInt

  datatype Result<T> = Ok(value: T) | Err(error: Error)
  {
    predicate IsFailure()
    {
      Err?
    }

    function PropagateFailure<U>(): Result<U>
      requires Err?
    {
      Err(error)
    }

    function Extract(): T
      requires Ok?
    {
      value
    }
  }

  /** The outcome of a constructor or setter: the registries afterwards and
      either the value produced or the error raised. */
  datatype Step<T> = Step(state: State, result: Result<T>)

  /** `isinstance(v, Author)`: `v` is a registered author. */
  predicate IsAuthor(st: State, v: Value)
  {
    v.AuthorRef? && v.author < |st.authors|
  }

  /** `isinstance(v, Book)`: `v` is a registered book. */
  predicate IsBook(st: State, v: Value)
  {
    v.BookRef? && v.book < |st.books|
  }

  /** The condition of one of the three list comprehensions over
      `Contract.all`. */
  datatype Key = ByAuthor(author: AuthorId) | ByBook(book: BookId) | ByDate(date: Value)

  predicate Matches(c: Contract, k: Key)
  {
    match k
    case ByAuthor(a) => c.author == a
    case ByBook(b) => c.book == b
    // a date argument that is not a string never equals a stored date
    case ByDate(d) => d == Str(c.date)
  }

  /** `r` lists exactly the positions of `cs` whose contract satisfies `k`,
      in registry order and without repetition. */
  ghost predicate Enumerates(cs: seq<Contract>, k: Key, r: seq<ContractId>)
  {
    && (forall j :: 0 <= j < |r| ==> r[j] < |cs| && Matches(cs[r[j]], k))
    && (forall j, j' :: 0 <= j < j' < |r| ==> r[j] < r[j'])
    && (forall i :: 0 <= i < |cs| && Matches(cs[i], k) ==> i in r)
  }

  /** `[contract for contract in Contract.all if <k>]`, as positions. */
  function Query(cs: seq<Contract>, k: Key): (r: seq<ContractId>)
    ensures forall j :: 0 <= j < |r| ==> r[j] < |cs| && Matches(cs[r[j]], k)
    ensures forall j, j' :: 0 <= j < j' < |r| ==> r[j] < r[j']
    ensures forall i :: 0 <= i < |cs| && Matches(cs[i], k) ==> i in r
    decreases |cs|
  {
    if cs == [] then []
    else
      var n := |cs| - 1;
      Query(cs[..n], k) + (if Matches(cs[n], k) then [n] else [])
  }

  /** If the last registered contract matches, an enumeration ends with its
      position and the rest enumerates the shorter registry. */
  lemma EnumeratesLastMatch(cs: seq<Contract>, k: Key, r: seq<ContractId>)
    requires |cs| > 0 && Matches(cs[|cs| - 1], k)
    requires Enumerates(cs, k, r)
    ensures |r| > 0 && r[|r| - 1] == |cs| - 1
    ensures Enumerates(cs[..|cs| - 1], k, r[..|r| - 1])
  {
  }

  /** If the last registered contract does not match, an enumeration of the
      registry also enumerates the registry without it. */
  lemma EnumeratesLastMiss(cs: seq<Contract>, k: Key, r: seq<ContractId>)
    requires |cs| > 0 && !Matches(cs[|cs| - 1], k)
    requires Enumerates(cs, k, r)
    ensures Enumerates(cs[..|cs| - 1], k, r)
  {
  }

  /** The three properties of `Query` determine its result: any list that
      enumerates the matching positions in order is the query's answer. */
  lemma {:induction false} QueryUnique(cs: seq<Contract>, k: Key, r: seq<ContractId>)
    requires Enumerates(cs, k, r)
    ensures r == Query(cs, k)
    decreases |cs|
  {
    if cs == [] {
      assert |r| == 0;
    } else {
      var n := |cs| - 1;
      if Matches(cs[n], k) {
        EnumeratesLastMatch(cs, k, r);
        QueryUnique(cs[..n], k, r[..|r| - 1]);
        assert r == r[..|r| - 1] + [n];
      } else {
        EnumeratesLastMiss(cs, k, r);
        QueryUnique(cs[..n], k, r);
      }
    }
  }

  /** Appending a contract to the registry extends every query by that
      contract's position exactly when it matches. */
  lemma QueryAppend(cs: seq<Contract>, c: Contract, k: Key)
    ensures Query(cs + [c], k) == Query(cs, k) + (if Matches(c, k) then [|cs|] else [])
  {
  }

  /** Replacing one registered contract by another that agrees on `k` leaves
      the query over `k` unchanged. */
  lemma QueryUpdateSame(cs: seq<Contract>, i: ContractId, x: Contract, k: Key)
    requires i < |cs|
    requires Matches(cs[i], k) <==> Matches(x, k)
    ensures Query(cs[i := x], k) == Query(cs, k)
  {
    QueryUnique(cs[i := x], k, Query(cs, k));
  }

  /** All listed positions are registered contracts. */
  predicate AllIn(cs: seq<Contract>, ids: seq<ContractId>)
  {
    forall j :: 0 <= j < |ids| ==> ids[j] < |cs|
  }

  /** `[contract.book for contract in ids]`. */
  function BooksAt(cs: seq<Contract>, ids: seq<ContractId>): (r: seq<BookId>)
    requires AllIn(cs, ids)
  {
    seq(|ids|, j requires 0 <= j < |ids| => cs[ids[j]].book)
  }

  /** `[contract.author for contract in ids]`. */
  function AuthorsAt(cs: seq<Contract>, ids: seq<ContractId>): (r: seq<AuthorId>)
    requires AllIn(cs, ids)
  {
    seq(|ids|, j requires 0 <= j < |ids| => cs[ids[j]].author)
  }
}
