/** The `Contract` class: construction through the four validating property
    setters, reassignment of a field of a registered contract, and the
    class-wide query by date. */
module ContractClass {
  import opened Registry

  /** The check of the `author` setter. */
  function CheckAuthor(st: State, v: Value): (r: Result<AuthorId>)
    ensures r.Ok? <==> IsAuthor(st, v)
    ensures r.Ok? ==> r.value == v.author
    ensures r.Err? ==> r.error == NotAnAuthor
  {
    if IsAuthor(st, v) then Ok(v.author) else Err(NotAnAuthor)
  }

  /** The check of the `book` setter. */
  function CheckBook(st: State, v: Value): (r: Result<BookId>)
    ensures r.Ok? <==> IsBook(st, v)
    ensures r.Ok? ==> r.value == v.book
    ensures r.Err? ==> r.error == NotABook
  {
    if IsBook(st, v) then Ok(v.book) else Err(NotABook)
  }

  /** The check of the `date` setter. */
  function CheckDate(v: Value): (r: Result<string>)
    ensures r.Ok? <==> v.Str?
    ensures r.Ok? ==> r.value == v.str
    ensures r.Err? ==> r.error == DateNotString
  {
    if v.Str? then Ok(v.str) else Err(DateNotString)
  }

  /** The check of the `royalties` setter. */
  function CheckRoyalties(v: Value): (r: Result<int>)
    ensures r.Ok? <==> v.Int?
    ensures r.Ok? ==> r.value == v.n
    ensures r.Err? ==> r.error == RoyaltiesNotInt
  {
    if v.Int? then Ok(v.n) else Err(RoyaltiesNotInt)
  }

  /** The four assignments of `__init__`, in their order: the first setter
      that raises ends construction. */
  function Fields(st: State, author: Value, book: Value, date: Value, royalties: Value): Result<Contract>
  {
    var a :- CheckAuthor(st, author);
    var b :- CheckBook(st, book);
    var d :- CheckDate(date);
    var n :- CheckRoyalties(royalties);
    Ok(Contract(a, b, d, n))
  }

  /** `Contract(author, book, date, royalties)`: registers a new contract when
      all four fields are valid, and otherwise raises the error of the first
      invalid field and registers nothing. */
  function Construct(st: State, author: Value, book: Value, date: Value, royalties: Value): (r: Step<ContractId>)
    ensures r.result.Ok? <==> IsAuthor(st, author) && IsBook(st, book) && date.Str? && royalties.Int?
    ensures !IsAuthor(st, author) ==> r.result == Err(NotAnAuthor)
    ensures IsAuthor(st, author) && !IsBook(st, book) ==> r.result == Err(NotABook)
    ensures IsAuthor(st, author) && IsBook(st, book) && !date.Str? ==> r.result == Err(DateNotString)
    ensures IsAuthor(st, author) && IsBook(st, book) && date.Str? && !royalties.Int? ==>
              r.result == Err(RoyaltiesNotInt)
    ensures r.result.Err? ==> r.state == st
    ensures r.result.Ok? ==>
              && r.result.value == |st.contracts|
              && r.state.authors == st.authors
              && r.state.books == st.books
              && |r.state.contracts| == |st.contracts| + 1
              && r.state.contracts[..|st.contracts|] == st.contracts
              && r.state.contracts[|st.contracts|]
                 == Contract(author.author, book.book, date.str, royalties.n)
    ensures st.Valid() ==> r.state.Valid()
  {
    match Fields(st, author, book, date, royalties)
    case Err(e) => Step(st, Err(e))
    case Ok(c) => Step(st.(contracts := st.contracts + [c]), Ok(|st.contracts|))
  }

  /** Stores `x` as the contract at position `c`. */
  function Amend(st: State, c: ContractId, x: Contract): (r: Step<()>)
    requires c < |st.contracts|
  {
    Step(st.(contracts := st.contracts[c := x]), Ok(()))
  }

  /** `contract.author = v` on the registered contract `c`. */
  function SetAuthor(st: State, c: ContractId, v: Value): (r: Step<()>)
    requires c < |st.contracts|
    ensures r.result.Ok? <==> IsAuthor(st, v)
    ensures r.result.Err? ==> r.state == st && r.result.error == NotAnAuthor
    ensures r.result.Ok? ==>
              && r.state.authors == st.authors
              && r.state.books == st.books
              && |r.state.contracts| == |st.contracts|
              && r.state.contracts[c] == st.contracts[c].(author := v.author)
              && forall i :: 0 <= i < |st.contracts| && i != c ==> r.state.contracts[i] == st.contracts[i]
    ensures st.Valid() ==> r.state.Valid()
  {
    match CheckAuthor(st, v)
    case Err(e) => Step(st, Err(e))
    case Ok(a) => Amend(st, c, st.contracts[c].(author := a))
  }

  /** `contract.book = v` on the registered contract `c`. */
  function SetBook(st: State, c: ContractId, v: Value): (r: Step<()>)
    requires c < |st.contracts|
    ensures r.result.Ok? <==> IsBook(st, v)
    ensures r.result.Err? ==> r.state == st && r.result.error == NotABook
    ensures r.result.Ok? ==>
              && r.state.authors == st.authors
              && r.state.books == st.books
              && |r.state.contracts| == |st.contracts|
              && r.state.contracts[c] == st.contracts[c].(book := v.book)
              && forall i :: 0 <= i < |st.contracts| && i != c ==> r.state.contracts[i] == st.contracts[i]
    ensures st.Valid() ==> r.state.Valid()
  {
    match CheckBook(st, v)
    case Err(e) => Step(st, Err(e))
    case Ok(b) => Amend(st, c, st.contracts[c].(book := b))
  }

  /** `contract.date = v` on the registered contract `c`. */
  function SetDate(st: State, c: ContractId, v: Value): (r: Step<()>)
    requires c < |st.contracts|
    ensures r.result.Ok? <==> v.Str?
    ensures r.result.Err? ==> r.state == st && r.result.error == DateNotString
    ensures r.result.Ok? ==>
              && r.state.authors == st.authors
              && r.state.books == st.books
              && |r.state.contracts| == |st.contracts|
              && r.state.contracts[c] == st.contracts[c].(date := v.str)
              && forall i :: 0 <= i < |st.contracts| && i != c ==> r.state.contracts[i] == st.contracts[i]
    ensures st.Valid() ==> r.state.Valid()
  {
    match CheckDate(v)
    case Err(e) => Step(st, Err(e))
    case Ok(d) => Amend(st, c, st.contracts[c].(date := d))
  }

  /** `contract.royalties = v` on the registered contract `c`. */
  function SetRoyalties(st: State, c: ContractId, v: Value): (r: Step<()>)
    requires c < |st.contracts|
    ensures r.result.Ok? <==> v.Int?
    ensures r.result.Err? ==> r.state == st && r.result.error == RoyaltiesNotInt
    ensures r.result.Ok? ==>
              && r.state.authors == st.authors
              && r.state.books == st.books
              && |r.state.contracts| == |st.contracts|
              && r.state.contracts[c] == st.contracts[c].(royalties := v.n)
              && forall i :: 0 <= i < |st.contracts| && i != c ==> r.state.contracts[i] == st.contracts[i]
    ensures st.Valid() ==> r.state.Valid()
  {
    match CheckRoyalties(v)
    case Err(e) => Step(st, Err(e))
    case Ok(n) => Amend(st, c, st.contracts[c].(royalties := n))
  }

  /** `Contract.contracts_by_date(d)`: the registered contracts dated `d`, in
      registry order; none at all when `d` is not a string. */
  function ContractsByDate(st: State, d: Value): (r: seq<ContractId>)
    ensures forall j :: 0 <= j < |r| ==> r[j] < |st.contracts| && d == Str(st.contracts[r[j]].date)
    ensures forall j, j' :: 0 <= j < j' < |r| ==> r[j] < r[j']
    ensures forall i :: 0 <= i < |st.contracts| && d == Str(st.contracts[i].date) ==> i in r
    ensures !d.Str? ==> r == []
  {
    var r := Query(st.contracts, ByDate(d));
    assert |r| > 0 ==> Matches(st.contracts[r[0]], ByDate(d));
    r
  }
}
