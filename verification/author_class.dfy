/** The `Author` class: validated construction, the relationship queries,
    signing a contract, and the royalty total. */
module AuthorClass {
  import opened Registry
  import ContractClass
  import BookClass

  /** `Author(name)`: registers a new author at the end of `Author.all` when
      the name is a string, and otherwise raises and registers nothing. */
  function Construct(st: State, name: Value): (r: Step<AuthorId>)
    ensures r.result.Ok? <==> name.Str?
    ensures r.result.Err? ==> r.state == st && r.result.error == NameNotString
    ensures r.result.Ok? ==>
              && r.result.value == |st.authors|
              && r.state.books == st.books
              && r.state.contracts == st.contracts
              && |r.state.authors| == |st.authors| + 1
              && r.state.authors[..|st.authors|] == st.authors
              && r.state.authors[|st.authors|] == Author(name.str)
    ensures st.Valid() ==> r.state.Valid()
    ensures st.Valid() && r.result.Ok? ==>
              Contracts(r.state, r.result.value) == [] && TotalRoyalties(r.state, r.result.value) == 0
  {
    if name.Str? then
      var st' := st.(authors := st.authors + [Author(name.str)]);
      var id := |st.authors|;
      assert |Contracts(st', id)| > 0 ==> st'.contracts[Contracts(st', id)[0]].author == id;
      Step(st', Ok(id))
    else
      Step(st, Err(NameNotString))
  }

  /** `author.contracts()`: the contracts naming author `a`, in registry
      order. */
  function Contracts(st: State, a: AuthorId): (r: seq<ContractId>)
    ensures forall j :: 0 <= j < |r| ==> r[j] < |st.contracts| && st.contracts[r[j]].author == a
    ensures forall j, j' :: 0 <= j < j' < |r| ==> r[j] < r[j']
    ensures forall i :: 0 <= i < |st.contracts| && st.contracts[i].author == a ==> i in r
  {
    Query(st.contracts, ByAuthor(a))
  }

  /** `author.books()`: the book of each contract of `a`, position by
      position, so a book with several contracts for `a` appears several
      times. */
  function Books(st: State, a: AuthorId): (r: seq<BookId>)
    ensures |r| == |Contracts(st, a)|
    ensures forall j :: 0 <= j < |r| ==> r[j] == st.contracts[Contracts(st, a)[j]].book
  {
    BooksAt(st.contracts, Contracts(st, a))
  }

  /** `b` is among the books of `a` exactly when some registered contract
      links `a` to `b`. */
  lemma BooksMembership(st: State, a: AuthorId, b: BookId)
    ensures b in Books(st, a) <==>
              exists i :: 0 <= i < |st.contracts| && st.contracts[i].author == a && st.contracts[i].book == b
  {
  }

  /** `author.sign_contract(book, date, royalties)`: constructs
      `Contract(author, book, date, royalties)`. The author field always
      passes its check, so only the other three can make it raise. */
  function SignContract(st: State, a: AuthorId, book: Value, date: Value, royalties: Value): (r: Step<ContractId>)
    requires a < |st.authors|
    ensures r.result.Ok? <==> IsBook(st, book) && date.Str? && royalties.Int?
    ensures r.result.Err? ==> r.state == st && r.result.error != NotAnAuthor
    ensures r.result.Ok? ==>
              && r.result.value == |st.contracts|
              && r.state.authors == st.authors
              && r.state.books == st.books
              && r.state.contracts == st.contracts + [Contract(a, book.book, date.str, royalties.n)]
    ensures st.Valid() ==> r.state.Valid()
  {
    var r := ContractClass.Construct(st, AuthorRef(a), book, date, royalties);
    assert r.result.Ok? ==> r.state.contracts == r.state.contracts[..|st.contracts|] + [r.state.contracts[|st.contracts|]];
    r
  }

  /** The share of contract `c` in the royalties of author `a`. */
  function Share(c: Contract, a: AuthorId): int
  {
    if c.author == a then c.royalties else 0
  }

  /** Reference definition of an author's royalty total, independent of the
      contract list: every registered contract contributes its share. */
  function RoyaltiesWhere(cs: seq<Contract>, a: AuthorId): int
    decreases |cs|
  {
    if cs == [] then 0
    else RoyaltiesWhere(cs[..|cs| - 1], a) + Share(cs[|cs| - 1], a)
  }

  /** `sum(contract.royalties for contract in ids)`. */
  function SumRoyalties(cs: seq<Contract>, ids: seq<ContractId>): int
    requires AllIn(cs, ids)
    decreases |ids|
  {
    if ids == [] then 0
    else SumRoyalties(cs, ids[..|ids| - 1]) + cs[ids[|ids| - 1]].royalties
  }

  /** A sum over listed contracts does not depend on contracts registered
      after them. */
  lemma {:induction false} SumExtend(cs: seq<Contract>, c: Contract, ids: seq<ContractId>)
    requires AllIn(cs, ids)
    ensures SumRoyalties(cs + [c], ids) == SumRoyalties(cs, ids)
    decreases |ids|
  {
    if ids != [] {
      SumExtend(cs, c, ids[..|ids| - 1]);
    }
  }

  /** Summing over `author.contracts()` gives the reference total. */
  lemma {:induction false} TotalIsRegistrySum(cs: seq<Contract>, a: AuthorId)
    ensures SumRoyalties(cs, Query(cs, ByAuthor(a))) == RoyaltiesWhere(cs, a)
    decreases |cs|
  {
    if cs != [] {
      var n := |cs| - 1;
      var p := cs[..n];
      var ids := Query(p, ByAuthor(a));
      assert cs == p + [cs[n]];
      TotalIsRegistrySum(p, a);
      SumExtend(p, cs[n], ids);
      if cs[n].author == a {
        assert Query(cs, ByAuthor(a)) == ids + [n];
        assert (ids + [n])[..|ids|] == ids;
        assert SumRoyalties(cs, ids + [n]) == SumRoyalties(cs, ids) + cs[n].royalties;
      } else {
        assert Query(cs, ByAuthor(a)) == ids;
      }
    }
  }

  /** `author.total_royalties()`: the royalties of the contracts of `a`
      added up; every registered contract of `a` counts once, and an author
      without contracts totals 0. */
  function TotalRoyalties(st: State, a: AuthorId): (r: int)
    ensures r == RoyaltiesWhere(st.contracts, a)
    ensures Contracts(st, a) == [] ==> r == 0
  {
    TotalIsRegistrySum(st.contracts, a);
    SumRoyalties(st.contracts, Contracts(st, a))
  }

  /** Registering one more contract adds its share to the reference total. */
  lemma RoyaltiesWhereAppend(cs: seq<Contract>, c: Contract, a: AuthorId)
    ensures RoyaltiesWhere(cs + [c], a) == RoyaltiesWhere(cs, a) + Share(c, a)
  {
  }

  /** Replacing one registered contract changes the reference total by the
      difference of the two shares. */
  lemma {:induction false} RoyaltiesWhereUpdate(cs: seq<Contract>, i: ContractId, x: Contract, a: AuthorId)
    requires i < |cs|
    ensures RoyaltiesWhere(cs[i := x], a) == RoyaltiesWhere(cs, a) - Share(cs[i], a) + Share(x, a)
    decreases |cs|
  {
    var n := |cs| - 1;
    if i == n {
      assert cs[i := x][..n] == cs[..n];
    } else {
      assert cs[i := x][..n] == cs[..n][i := x];
      RoyaltiesWhereUpdate(cs[..n], i, x, a);
    }
  }

  /** After a successful `sign_contract`, the new contract is the last one
      of `a` and of its book, the book is now among the books of `a`, and `a`
      among the authors of the book. */
  lemma SignContractLinks(st: State, a: AuthorId, book: Value, date: Value, royalties: Value)
    requires a < |st.authors|
    requires SignContract(st, a, book, date, royalties).result.Ok?
    ensures var st' := SignContract(st, a, book, date, royalties).state;
            && Contracts(st', a) == Contracts(st, a) + [|st.contracts|]
            && Books(st', a) == Books(st, a) + [book.book]
            && book.book in Books(st', a)
    ensures var st' := SignContract(st, a, book, date, royalties).state;
            && BookClass.Contracts(st', book.book) == BookClass.Contracts(st, book.book) + [|st.contracts|]
            && BookClass.Authors(st', book.book) == BookClass.Authors(st, book.book) + [a]
            && a in BookClass.Authors(st', book.book)
  {
    var st' := SignContract(st, a, book, date, royalties).state;
    var c := Contract(a, book.book, date.str, royalties.n);
    QueryAppend(st.contracts, c, ByAuthor(a));
    QueryAppend(st.contracts, c, ByBook(book.book));
    assert Books(st', a) == Books(st, a) + [book.book];
    assert BookClass.Authors(st', book.book) == BookClass.Authors(st, book.book) + [a];
  }

  /** A successful `sign_contract` adds its royalties to the total of `a`
      and leaves every other author's total unchanged. */
  lemma SignContractTotals(st: State, a: AuthorId, book: Value, date: Value, royalties: Value)
    requires a < |st.authors|
    requires SignContract(st, a, book, date, royalties).result.Ok?
    ensures var st' := SignContract(st, a, book, date, royalties).state;
            forall a' :: TotalRoyalties(st', a') == if a' == a then TotalRoyalties(st, a) + royalties.n
                                                    else TotalRoyalties(st, a')
  {
    var st' := SignContract(st, a, book, date, royalties).state;
    var c := Contract(a, book.book, date.str, royalties.n);
    forall a'
      ensures TotalRoyalties(st', a') == TotalRoyalties(st, a') + Share(c, a')
    {
      RoyaltiesWhereAppend(st.contracts, c, a');
    }
  }

  /** A successful `sign_contract` leaves the contracts of every other
      author and of every other book unchanged. */
  lemma SignContractOthers(st: State, a: AuthorId, book: Value, date: Value, royalties: Value)
    requires a < |st.authors|
    requires SignContract(st, a, book, date, royalties).result.Ok?
    ensures var st' := SignContract(st, a, book, date, royalties).state;
            forall a' :: a' != a ==> Contracts(st', a') == Contracts(st, a')
    ensures var st' := SignContract(st, a, book, date, royalties).state;
            forall b' :: b' != book.book ==> BookClass.Contracts(st', b') == BookClass.Contracts(st, b')
  {
    var st' := SignContract(st, a, book, date, royalties).state;
    var c := Contract(a, book.book, date.str, royalties.n);
    forall a' | a' != a
      ensures Contracts(st', a') == Contracts(st, a')
    {
      QueryAppend(st.contracts, c, ByAuthor(a'));
    }
    forall b' | b' != book.book
      ensures BookClass.Contracts(st', b') == BookClass.Contracts(st, b')
    {
      QueryAppend(st.contracts, c, ByBook(b'));
    }
  }
}
