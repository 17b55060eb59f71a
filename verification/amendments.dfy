/** Reassigning a field of a registered contract through its property
    setter. Every query scans the live contract records, so a successful
    reassignment is seen by every later query; these lemmas say exactly how,
    and that the queries about the other fields are unaffected. A failed
    reassignment leaves the registries as they were (see the setters
    themselves). */
module Amendments {
  import opened Registry
  import ContractClass
  import AuthorClass
  import BookClass

  /** After `contract.author = v`: the contract now belongs to `v` alone,
      its royalties move from the old author's total to the new one's, so
      every later query of `author.contracts()` sees the change. */
  lemma SetAuthorEffects(st: State, c: ContractId, v: Value)
    requires c < |st.contracts| && IsAuthor(st, v)
    ensures var st' := ContractClass.SetAuthor(st, c, v).state;
            forall a :: c in AuthorClass.Contracts(st', a) <==> a == v.author
    ensures var st' := ContractClass.SetAuthor(st, c, v).state;
            forall a :: AuthorClass.TotalRoyalties(st', a)
                        == AuthorClass.TotalRoyalties(st, a)
                           - AuthorClass.Share(st.contracts[c], a)
                           + AuthorClass.Share(st'.contracts[c], a)
  {
    var st' := ContractClass.SetAuthor(st, c, v).state;
    var x := st.contracts[c].(author := v.author);
    assert st'.contracts == st.contracts[c := x];
    forall a
      ensures AuthorClass.TotalRoyalties(st', a)
              == AuthorClass.TotalRoyalties(st, a) - AuthorClass.Share(st.contracts[c], a) + AuthorClass.Share(x, a)
    {
      AuthorClass.RoyaltiesWhereUpdate(st.contracts, c, x, a);
    }
  }

  /** `contract.author = v` changes neither the contracts of any book nor
      the answer of any query by date, and the authors of the contract's book
      show `v` in its place. */
  lemma SetAuthorKeeps(st: State, c: ContractId, v: Value)
    requires c < |st.contracts| && IsAuthor(st, v)
    ensures var st' := ContractClass.SetAuthor(st, c, v).state;
            forall b :: BookClass.Contracts(st', b) == BookClass.Contracts(st, b)
    ensures var st' := ContractClass.SetAuthor(st, c, v).state;
            forall b, j :: 0 <= j < |BookClass.Authors(st', b)| ==>
              BookClass.Authors(st', b)[j]
              == if BookClass.Contracts(st, b)[j] == c then v.author else BookClass.Authors(st, b)[j]
    ensures var st' := ContractClass.SetAuthor(st, c, v).state;
            forall d :: ContractClass.ContractsByDate(st', d) == ContractClass.ContractsByDate(st, d)
  {
    var st' := ContractClass.SetAuthor(st, c, v).state;
    var x := st.contracts[c].(author := v.author);
    assert st'.contracts == st.contracts[c := x];
    forall b
      ensures BookClass.Contracts(st', b) == BookClass.Contracts(st, b)
    {
      QueryUpdateSame(st.contracts, c, x, ByBook(b));
    }
    forall d
      ensures ContractClass.ContractsByDate(st', d) == ContractClass.ContractsByDate(st, d)
    {
      QueryUpdateSame(st.contracts, c, x, ByDate(d));
    }
  }

  /** After `contract.book = v`: the contract now belongs to book `v` alone,
      the books of its author show `v` in its place, and the author totals
      and the author and date queries are unchanged. */
  lemma SetBookEffects(st: State, c: ContractId, v: Value)
    requires c < |st.contracts| && IsBook(st, v)
    ensures var st' := ContractClass.SetBook(st, c, v).state;
            forall b :: c in BookClass.Contracts(st', b) <==> b == v.book
    ensures var st' := ContractClass.SetBook(st, c, v).state;
            forall a :: AuthorClass.Contracts(st', a) == AuthorClass.Contracts(st, a)
                        && AuthorClass.TotalRoyalties(st', a) == AuthorClass.TotalRoyalties(st, a)
    ensures var st' := ContractClass.SetBook(st, c, v).state;
            forall a, j :: 0 <= j < |AuthorClass.Books(st', a)| ==>
              AuthorClass.Books(st', a)[j]
              == if AuthorClass.Contracts(st, a)[j] == c then v.book else AuthorClass.Books(st, a)[j]
    ensures var st' := ContractClass.SetBook(st, c, v).state;
            forall d :: ContractClass.ContractsByDate(st', d) == ContractClass.ContractsByDate(st, d)
  {
    var st' := ContractClass.SetBook(st, c, v).state;
    var x := st.contracts[c].(book := v.book);
    assert st'.contracts == st.contracts[c := x];
    forall a
      ensures AuthorClass.Contracts(st', a) == AuthorClass.Contracts(st, a)
      ensures AuthorClass.TotalRoyalties(st', a) == AuthorClass.TotalRoyalties(st, a)
    {
      QueryUpdateSame(st.contracts, c, x, ByAuthor(a));
      AuthorClass.RoyaltiesWhereUpdate(st.contracts, c, x, a);
    }
    forall d
      ensures ContractClass.ContractsByDate(st', d) == ContractClass.ContractsByDate(st, d)
    {
      QueryUpdateSame(st.contracts, c, x, ByDate(d));
    }
  }

  /** After `contract.date = v`: the contract is found by date `v` and by no
      other date, and every author and book query is unchanged. */
  lemma SetDateEffects(st: State, c: ContractId, v: Value)
    requires c < |st.contracts| && v.Str?
    ensures var st' := ContractClass.SetDate(st, c, v).state;
            forall d :: c in ContractClass.ContractsByDate(st', d) <==> d == v
    ensures var st' := ContractClass.SetDate(st, c, v).state;
            forall a :: && AuthorClass.Contracts(st', a) == AuthorClass.Contracts(st, a)
                        && AuthorClass.Books(st', a) == AuthorClass.Books(st, a)
                        && AuthorClass.TotalRoyalties(st', a) == AuthorClass.TotalRoyalties(st, a)
    ensures var st' := ContractClass.SetDate(st, c, v).state;
            forall b :: && BookClass.Contracts(st', b) == BookClass.Contracts(st, b)
                        && BookClass.Authors(st', b) == BookClass.Authors(st, b)
  {
    var st' := ContractClass.SetDate(st, c, v).state;
    var x := st.contracts[c].(date := v.str);
    assert st'.contracts == st.contracts[c := x];
    forall a
      ensures AuthorClass.Contracts(st', a) == AuthorClass.Contracts(st, a)
      ensures AuthorClass.Books(st', a) == AuthorClass.Books(st, a)
      ensures AuthorClass.TotalRoyalties(st', a) == AuthorClass.TotalRoyalties(st, a)
    {
      QueryUpdateSame(st.contracts, c, x, ByAuthor(a));
      AuthorClass.RoyaltiesWhereUpdate(st.contracts, c, x, a);
    }
    forall b
      ensures BookClass.Contracts(st', b) == BookClass.Contracts(st, b)
      ensures BookClass.Authors(st', b) == BookClass.Authors(st, b)
    {
      QueryUpdateSame(st.contracts, c, x, ByBook(b));
    }
  }

  /** After `contract.royalties = v`: the total of the contract's author
      changes by the difference, every other total is unchanged, and no
      list query changes. */
  lemma SetRoyaltiesEffects(st: State, c: ContractId, v: Value)
    requires c < |st.contracts| && v.Int?
    ensures var st' := ContractClass.SetRoyalties(st, c, v).state;
            forall a :: AuthorClass.TotalRoyalties(st', a)
                        == if a == st.contracts[c].author
                           then AuthorClass.TotalRoyalties(st, a) - st.contracts[c].royalties + v.n
                           else AuthorClass.TotalRoyalties(st, a)
    ensures var st' := ContractClass.SetRoyalties(st, c, v).state;
            forall a :: AuthorClass.Contracts(st', a) == AuthorClass.Contracts(st, a)
                        && AuthorClass.Books(st', a) == AuthorClass.Books(st, a)
    ensures var st' := ContractClass.SetRoyalties(st, c, v).state;
            forall b :: BookClass.Contracts(st', b) == BookClass.Contracts(st, b)
                        && BookClass.Authors(st', b) == BookClass.Authors(st, b)
    ensures var st' := ContractClass.SetRoyalties(st, c, v).state;
            forall d :: ContractClass.ContractsByDate(st', d) == ContractClass.ContractsByDate(st, d)
  {
    var st' := ContractClass.SetRoyalties(st, c, v).state;
    var x := st.contracts[c].(royalties := v.n);
    assert st'.contracts == st.contracts[c := x];
    forall a
      ensures AuthorClass.Contracts(st', a) == AuthorClass.Contracts(st, a)
      ensures AuthorClass.Books(st', a) == AuthorClass.Books(st, a)
      ensures AuthorClass.TotalRoyalties(st', a)
              == AuthorClass.TotalRoyalties(st, a) - AuthorClass.Share(st.contracts[c], a) + AuthorClass.Share(x, a)
    {
      QueryUpdateSame(st.contracts, c, x, ByAuthor(a));
      AuthorClass.RoyaltiesWhereUpdate(st.contracts, c, x, a);
    }
    forall b
      ensures BookClass.Contracts(st', b) == BookClass.Contracts(st, b)
      ensures BookClass.Authors(st', b) == BookClass.Authors(st, b)
    {
      QueryUpdateSame(st.contracts, c, x, ByBook(b));
    }
    forall d
      ensures ContractClass.ContractsByDate(st', d) == ContractClass.ContractsByDate(st, d)
    {
      QueryUpdateSame(st.contracts, c, x, ByDate(d));
    }
  }
}
