/** The `Book` class: validated construction and the two relationship
    queries, both computed on demand by scanning `Contract.all`. */
module BookClass {
  import opened Registry

  /** `Book(title)`: registers a new book at the end of `Book.all` when the
      title is a string, and otherwise raises and registers nothing. */
  function Construct(st: State, title: Value): (r: Step<BookId>)
    ensures r.result.Ok? <==> title.Str?
    ensures r.result.Err? ==> r.state == st && r.result.error == TitleNotString
    ensures r.result.Ok? ==>
              && r.result.value == |st.books|
              && r.state.authors == st.authors
              && r.state.contracts == st.contracts
              && |r.state.books| == |st.books| + 1
              && r.state.books[..|st.books|] == st.books
              && r.state.books[|st.books|] == Book(title.str)
    ensures st.Valid() ==> r.state.Valid()
    ensures st.Valid() && r.result.Ok? ==> Contracts(r.state, r.result.value) == []
  {
    if title.Str? then
      var st' := st.(books := st.books + [Book(title.str)]);
      var id := |st.books|;
      assert |Contracts(st', id)| > 0 ==> st'.contracts[Contracts(st', id)[0]].book == id;
      Step(st', Ok(id))
    else
      Step(st, Err(TitleNotString))
  }

  /** `book.contracts()`: the contracts naming book `b`, in registry order. */
  function Contracts(st: State, b: BookId): (r: seq<ContractId>)
    ensures forall j :: 0 <= j < |r| ==> r[j] < |st.contracts| && st.contracts[r[j]].book == b
    ensures forall j, j' :: 0 <= j < j' < |r| ==> r[j] < r[j']
    ensures forall i :: 0 <= i < |st.contracts| && st.contracts[i].book == b ==> i in r
  {
    Query(st.contracts, ByBook(b))
  }

  /** `book.authors()`: the author of each contract of `b`, position by
      position, so an author with several contracts for `b` appears several
      times. */
  function Authors(st: State, b: BookId): (r: seq<AuthorId>)
    ensures |r| == |Contracts(st, b)|
    ensures forall j :: 0 <= j < |r| ==> r[j] == st.contracts[Contracts(st, b)[j]].author
  {
    AuthorsAt(st.contracts, Contracts(st, b))
  }

  /** `a` is among the authors of `b` exactly when some registered contract
      links `a` to `b`. */
  lemma AuthorsMembership(st: State, b: BookId, a: AuthorId)
    ensures a in Authors(st, b) <==>
              exists i :: 0 <= i < |st.contracts| && st.contracts[i].book == b && st.contracts[i].author == a
  {
  }
}
