# Authors, books and contracts — a Dafny model

This project models `lib/many_to_many.py`, a small in-memory relational
library. `Author` and `Book` objects are linked many-to-many through `Contract`
objects. Each contract names one author and one book and carries a date and a
royalty amount. Each class keeps a class-level registry (`Author.all`,
`Book.all`, `Contract.all`). Constructors and the contract's property setters
check the types of their arguments with `isinstance`. Every relationship query
(`contracts`, `books`, `authors`, `total_royalties`, `contracts_by_date`) is a
fresh scan of `Contract.all`.

How the model maps the library:

- **State.** The three registries form one immutable `Registry.State`, with
  three sequences in insertion order. Python object identity becomes the
  position in the registry (`AuthorId`, `BookId`, `ContractId`). The registries
  are append-only, so a position never changes meaning.
- **Arguments.** A dynamically typed argument is a `Registry.Value`: a string,
  an integer, a reference to an author or a book, or anything else.
  `isinstance(v, Author)` becomes "`v` refers to a registered author".
- **Constructors and setters.** They are functions from a state to a
  `Registry.Step`. A step holds the state afterwards and either the result or
  the error raised. This is what lets "a failure registers nothing" and "a
  failed setter changes nothing" be stated as contracts.
- **Construction order.** `Contract.__init__` runs its four setters in order:
  author, book, date, royalties. The first one that raises decides the error
  (`ContractClass.Fields`).
- **Queries.** All three list comprehensions over `Contract.all` are one
  function, `Registry.Query`, parameterised by a `Key`. A query returns
  positions, as the source returns the contract objects themselves.
  `Registry.QueryUnique` proves that `Query`'s contract pins its result down
  completely.
- **Royalty total.** `AuthorClass.TotalRoyalties` is checked against an
  independent reference total, `AuthorClass.RoyaltiesWhere`. In the reference,
  every registered contract adds its share.
- **Setter effects.** `Amendments` proves what each successful setter does to
  every later query.
- **Repeated calls.** The queries are pure functions of the state. Calling one
  twice without a construction in between therefore gives the same answer;
  no separate lemma is needed.
- **Scenario.** `Scenario.Dispossessed` walks through one example use, starting
  from empty registries: one author, one book, one contract between them.

Two consequences of the code worth stating:

- The library checks only that a name or title is a string (lines 8 and 38),
  so the empty string is accepted.
- A contract whose construction fails is not registered. Python does
  allocate the object and may assign some of its fields before raising, but
  that object is unreachable (see "Left out").

## Model

| member | source | states |
|---|---|---|
| Registry.Query | lib/many_to_many.py:15 | the scan returns the positions of exactly the registered contracts that satisfy the condition, in strictly increasing (registry) order |
| Registry.QueryUnique | lib/many_to_many.py:13-15 | any list that names exactly the matching positions in increasing order equals the query's answer, so the three properties of `Query` fully specify the comprehension |
| Registry.QueryAppend | lib/many_to_many.py:65 | registering one more contract extends every query by the new position exactly when the new contract matches, and leaves the earlier answer as a prefix |
| Registry.QueryUpdateSame | lib/many_to_many.py:67-109 | replacing a registered contract with one that agrees on the queried field leaves that query's answer unchanged |
| ContractClass.Construct | lib/many_to_many.py:58-65 | succeeds iff author and book are registered instances, date is a string and royalties an integer; otherwise raises the error of the first invalid field in setter order and leaves all registries unchanged; on success appends exactly one contract with the given fields at the end, keeps the prefix, and keeps every contract pointing at registered objects |
| ContractClass.SetAuthor | lib/many_to_many.py:71-76 | succeeds iff the value is a registered author; a failure changes nothing; a success replaces only the author of that contract |
| ContractClass.SetBook | lib/many_to_many.py:82-87 | succeeds iff the value is a registered book; a failure changes nothing; a success replaces only the book of that contract |
| ContractClass.SetDate | lib/many_to_many.py:93-98 | succeeds iff the value is a string; a failure changes nothing; a success replaces only the date of that contract |
| ContractClass.SetRoyalties | lib/many_to_many.py:104-109 | succeeds iff the value is an integer; a failure changes nothing; a success replaces only the royalties of that contract |
| ContractClass.ContractsByDate | lib/many_to_many.py:111-114 | returns exactly the registered contracts whose date equals the argument, in registry order; empty when none matches, in particular when the argument is not a string |
| BookClass.Construct | lib/many_to_many.py:36-41 | succeeds iff the title is a string; a failure registers nothing; a success appends exactly one book at the end, changes nothing else, and the new book has no contracts |
| BookClass.Contracts | lib/many_to_many.py:43-45 | returns exactly the registered contracts whose book is `b`, in registry order |
| BookClass.Authors | lib/many_to_many.py:47-49 | has one entry per contract of the book, and entry j is the author of contract j, so duplicates are kept |
| BookClass.AuthorsMembership | lib/many_to_many.py:47-49 | an author appears in `authors()` iff some registered contract links that author to the book (both directions) |
| AuthorClass.Construct | lib/many_to_many.py:6-11 | succeeds iff the name is a string; a failure registers nothing; a success appends exactly one author at the end, changes nothing else, and the new author has no contracts and a total of 0 |
| AuthorClass.Contracts | lib/many_to_many.py:13-15 | returns exactly the registered contracts whose author is `a`, in registry order |
| AuthorClass.Books | lib/many_to_many.py:17-19 | has one entry per contract of the author, and entry j is the book of contract j, so duplicates are kept |
| AuthorClass.BooksMembership | lib/many_to_many.py:17-19 | a book appears in `books()` iff some registered contract links the author to that book (both directions) |
| AuthorClass.SignContract | lib/many_to_many.py:21-23 | succeeds iff book, date and royalties are valid (the author is always accepted); a failure registers nothing and never reports the author; a success appends exactly the contract (a, book, date, royalties) at the end |
| AuthorClass.SignContractLinks | lib/many_to_many.py:21-23 | after a successful signing, the new contract is last among the author's contracts and among the book's contracts, the book is appended to `books()` and the author to `authors()`, so each is a member of the other's list |
| AuthorClass.SignContractTotals | lib/many_to_many.py:21-27 | after a successful signing, the signer's total grows by exactly the royalties and every other author's total is unchanged |
| AuthorClass.SignContractOthers | lib/many_to_many.py:21-23 | after a successful signing, the contracts of every other author and of every other book are unchanged |
| AuthorClass.TotalRoyalties | lib/many_to_many.py:25-27 | equals the reference total in which every registered contract of the author counts once, and is 0 when the author has no contracts |
| AuthorClass.TotalIsRegistrySum | lib/many_to_many.py:25-27 | summing royalties over `contracts()` equals the reference total over the whole registry |
| AuthorClass.SumExtend | lib/many_to_many.py:27 | a sum over listed contracts does not change when later contracts are registered |
| AuthorClass.RoyaltiesWhereAppend | lib/many_to_many.py:65 | registering a contract adds exactly its share to each author's reference total |
| AuthorClass.RoyaltiesWhereUpdate | lib/many_to_many.py:67-109 | replacing one registered contract changes each author's reference total by the new share minus the old share |
| Amendments.SetAuthorEffects | lib/many_to_many.py:71-76 | after reassigning the author, the contract belongs to the new author and to no other, and its royalties move from the old author's total to the new one's |
| Amendments.SetAuthorKeeps | lib/many_to_many.py:71-76 | after reassigning the author, the book's `authors()` shows the new author in that contract's position, and the book and date queries are unchanged |
| Amendments.SetBookEffects | lib/many_to_many.py:82-87 | after reassigning the book, the contract belongs to the new book and to no other; the author's `books()` shows the new book in that position; author contracts, totals and date queries are unchanged |
| Amendments.SetDateEffects | lib/many_to_many.py:93-98 | after reassigning the date, `contracts_by_date` finds the contract under the new date and under no other; every author and book query and every total is unchanged |
| Amendments.SetRoyaltiesEffects | lib/many_to_many.py:104-109 | after reassigning the royalties, the contract author's total changes by new minus old, other totals are unchanged, and no list query changes |
| Scenario.Dispossessed | lib/many_to_many.py:21-27 | the outputs are exactly what `Author("Ursula K. Le Guin")`, `Book("The Dispossessed")` and a signing dated "1974-01-01" worth 5000 produce from empty registries (positions 0, one record in each registry); then `books() == [book]`, `authors() == [author]`, a total of 5000 and `contracts_by_date == [contract]`; passing the book as author, or a string as royalties, raises and registers nothing |
| Scenario.OneContractLinks | lib/many_to_many.py:17-19 | with a single registered contract, its author's books and its book's authors are exactly the other party |
| Scenario.OneContractTotal | lib/many_to_many.py:25-27 | with a single registered contract, its author's total is that contract's royalties |
| Scenario.OneContractDated | lib/many_to_many.py:111-114 | with a single registered contract, it is the only contract of its date |

## Left out

- `isinstance(True, int)` holds in Python, so booleans pass the royalties check. `Value` has no boolean case, so this quirk is not modelled.
- `Author.name` and `Book.title` are plain attributes with no setter. Callers can rebind them directly, without any check. The model has no operation for that, and no query reads either field.
- Registries are never cleared. The library has no way to do it; only outside code could reset `.all`.
- Exception classes and message strings are not modelled. Each failure is one `Error` value naming the check that raised.
- A `Contract` whose `__init__` raises may be left partly initialised. It is never appended to `Contract.all`, so no query can reach it, and the model does not represent it. For the same reason, setters are modelled only on registered contracts (`c < |contracts|`).
- An `AuthorRef`/`BookRef` whose position is not registered cannot arise in Python, where a reference is an object. The model treats such a value as "not an instance" and rejects it.
- Signing requires the author to be registered. In Python, `sign_contract` is a method of an existing `Author`, and every such object is registered when it is constructed.
- Objects with a custom `__eq__`, and subclasses of `str`, `Author` or `Book`, are not modelled. Identity is equality of registry positions.
- Concurrency and I/O: the library has neither.
