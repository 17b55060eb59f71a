/** The end-to-end use of the library: one author, one book, one contract
    between them, starting from empty registries. */
module Scenario {
  import opened Registry
  import AuthorClass
  import BookClass
  import ContractClass

  /** Registering "Ursula K. Le Guin" and "The Dispossessed" and signing a
      contract dated "1974-01-01" worth 5000 links exactly the two of them,
      credits the author 5000, and makes the contract the only one of that
      date. Afterwards, passing the book where an author is expected, or a
      royalty that is not an integer, raises and registers nothing. */
  method Dispossessed() returns (st: State, author: AuthorId, book: BookId, contract: ContractId)
    ensures var s1 := AuthorClass.Construct(Initial, Str("Ursula K. Le Guin"));
            var s2 := BookClass.Construct(s1.state, Str("The Dispossessed"));
            && s1.result == Ok(author)
            && s2.result == Ok(book)
            && author < |s2.state.authors|
            && AuthorClass.SignContract(s2.state, author, BookRef(book), Str("1974-01-01"), Int(5000))
               == Step(st, Ok(contract))
    ensures author == 0 && book == 0 && contract == 0
    ensures st == State([Author("Ursula K. Le Guin")], [Book("The Dispossessed")],
                        [Contract(0, 0, "1974-01-01", 5000)])
    ensures AuthorClass.Books(st, author) == [book]
    ensures BookClass.Authors(st, book) == [author]
    ensures AuthorClass.TotalRoyalties(st, author) == 5000
    ensures ContractClass.ContractsByDate(st, Str("1974-01-01")) == [contract]
    ensures ContractClass.Construct(st, BookRef(book), BookRef(book), Str("1974-01-01"), Int(1))
            == Step(st, Err(NotAnAuthor))
    ensures ContractClass.Construct(st, AuthorRef(author), BookRef(book), Str("1974-01-01"), Str("5000"))
            == Step(st, Err(RoyaltiesNotInt))
  {
    var s1 := AuthorClass.Construct(Initial, Str("Ursula K. Le Guin"));
    author := s1.result.value;
    var s2 := BookClass.Construct(s1.state, Str("The Dispossessed"));
    book := s2.result.value;
    var s3 := AuthorClass.SignContract(s2.state, author, BookRef(book), Str("1974-01-01"), Int(5000));
    contract := s3.result.value;
    st := s3.state;
    var c := Contract(author, book, "1974-01-01", 5000);
    assert st.contracts == [c];
    assert s1.state.authors == [Author("Ursula K. Le Guin")];
    assert s2.state.books == [Book("The Dispossessed")];
    OneContractLinks(st, c);
    OneContractTotal(st, c);
    OneContractDated(st, c);
    assert !IsAuthor(st, BookRef(book));
  }

  /** With `c` the only registered contract, its author's books and its
      book's authors are exactly the other party. */
  lemma OneContractLinks(st: State, c: Contract)
    requires st.contracts == [c]
    ensures AuthorClass.Books(st, c.author) == [c.book]
    ensures BookClass.Authors(st, c.book) == [c.author]
  {
    assert st.contracts == [] + [c];
    QueryAppend([], c, ByAuthor(c.author));
    QueryAppend([], c, ByBook(c.book));
  }

  /** With `c` the only registered contract, its author's total is its
      royalties. */
  lemma OneContractTotal(st: State, c: Contract)
    requires st.contracts == [c]
    ensures AuthorClass.TotalRoyalties(st, c.author) == c.royalties
  {
    assert st.contracts == [] + [c];
    AuthorClass.RoyaltiesWhereAppend([], c, c.author);
  }

  /** With `c` the only registered contract, it is the only contract of its
      date. */
  lemma OneContractDated(st: State, c: Contract)
    requires st.contracts == [c]
    ensures ContractClass.ContractsByDate(st, Str(c.date)) == [0]
  {
    assert st.contracts == [] + [c];
    QueryAppend([], c, ByDate(Str(c.date)));
  }
}
