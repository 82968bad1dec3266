/** The customer list page: the seeded customers, the search box that
    narrows the table, the delete button on each row, and the two display
    choices a row makes (budget cell and status badge). */
module CustomersPage {
  import opened Browser
  import opened Text
  import opened Sequences

  /** The two thresholds shown in the Budget column. */
  datatype BudgetTable = BudgetTable(softBudget: int, hardBudget: int)

  /** One customer record as the page holds it. */
  datatype Customer = Customer(
    id: string,
    customerId: string,
    customerName: string,
    organizationId: string,
    email: string,
    budgetId: Option<string>,
    budgetTable: Option<BudgetTable>,
    blocked: bool)

  /** The three records the page loads on mount. */
  function SeedCustomers(): (cs: seq<Customer>)
    ensures |cs| == 3
    ensures forall i, j :: 0 <= i < j < |cs| ==> cs[i].id != cs[j].id
  {
    [ Customer("1", "cust_001", "Acme Corporation", "org_001", "admin@acme.com",
               Some("budget_001"), Some(BudgetTable(1000, 1500)), false),
      Customer("2", "cust_002", "TechStart Inc", "org_002", "contact@techstart.com",
               Some("budget_002"), Some(BudgetTable(500, 750)), false),
      Customer("3", "cust_003", "Global Solutions", "org_003", "info@globalsolutions.com",
               None, None, true) ]
  }

  /** The search rule for one row: the lower-cased name or the lower-cased
      email includes the lower-cased term. */
  predicate MatchesSearch(c: Customer, term: string)
    ensures term == "" ==> MatchesSearch(c, term)
    ensures Lower(term) <= Lower(c.customerName) || Lower(term) <= Lower(c.email) ==> MatchesSearch(c, term)
    ensures MatchesSearch(c, term) ==> |term| <= |c.customerName| || |term| <= |c.email|
  {
    if Lower(term) <= Lower(c.customerName) then ContainsPrefix(Lower(c.customerName), Lower(term)); true
    else if Lower(term) <= Lower(c.email) then ContainsPrefix(Lower(c.email), Lower(term)); true
    else Contains(Lower(c.customerName), Lower(term)) || Contains(Lower(c.email), Lower(term))
  }

  /** The rows the table shows for `term` (`filteredCustomers`). */
  function Search(customers: seq<Customer>, term: string): (rows: seq<Customer>)
    ensures IsSubsequence(rows, customers)
    ensures forall i :: 0 <= i < |rows| ==> MatchesSearch(rows[i], term)
  {
    FilterIsSubsequence(customers, c => MatchesSearch(c, term));
    Filter(customers, c => MatchesSearch(c, term))
  }

  /** The list after the delete button of customer `id` (`handleDelete`). */
  function DeleteById(customers: seq<Customer>, id: string): (rest: seq<Customer>)
    ensures IsSubsequence(rest, customers)
    ensures forall i :: 0 <= i < |rest| ==> rest[i].id != id
  {
    FilterIsSubsequence(customers, (c: Customer) => c.id != id);
    Filter(customers, (c: Customer) => c.id != id)
  }

  /** Search keeps the table's order, drops only non-matching rows, and
      keeps every matching row as many times as it occurs. */
  lemma SearchSpec(customers: seq<Customer>, term: string)
    ensures IsSubsequence(Search(customers, term), customers)
    ensures forall c :: c in Search(customers, term) <==> c in customers && MatchesSearch(c, term)
    ensures forall c :: multiset(Search(customers, term))[c]
                        == if MatchesSearch(c, term) then multiset(customers)[c] else 0
  {
    forall c ensures c in Search(customers, term) <==> c in customers && MatchesSearch(c, term) {
      FilterMembership(customers, c => MatchesSearch(c, term), c);
    }
    forall c ensures multiset(Search(customers, term))[c]
                     == if MatchesSearch(c, term) then multiset(customers)[c] else 0 {
      FilterCount(customers, c => MatchesSearch(c, term), c);
    }
  }

  /** An empty search box shows every customer in the original order. */
  lemma SearchEmptyTermKeepsAll(customers: seq<Customer>)
    ensures Search(customers, "") == customers
  {
    FilterKeepsAll(customers, c => MatchesSearch(c, ""));
  }

  /** Search is case-insensitive: terms that lower-case alike select the
      same rows. */
  lemma SearchCaseInsensitive(customers: seq<Customer>, t1: string, t2: string)
    requires Lower(t1) == Lower(t2)
    ensures Search(customers, t1) == Search(customers, t2)
  {
    FilterCongruent(customers, c => MatchesSearch(c, t1), c => MatchesSearch(c, t2));
  }

  /** "ACME" and "acme" select the same rows. */
  lemma SearchUpperAcmeIsLowerAcme(customers: seq<Customer>)
    ensures Search(customers, "ACME") == Search(customers, "acme")
  {
    assert Lower("ACME") == "acme" == Lower("acme");
    SearchCaseInsensitive(customers, "ACME", "acme");
  }

  /** On the seeded list, searching "acme" shows exactly the Acme
      Corporation row. */
  lemma SearchAcmeOnSeed()
    ensures Search(SeedCustomers(), "acme") == [SeedCustomers()[0]]
  {
    var cs := SeedCustomers();
    AcmeSelectsFirstSeed();
    AcmeSkipsSecondSeed();
    AcmeSkipsThirdSeed();
    var p := c => MatchesSearch(c, "acme");
    assert cs[1..][1..] == [cs[2]];
    assert Filter(cs[1..][1..], p) == [];
    assert Filter(cs[1..], p) == [];
  }

  lemma AcmeSelectsFirstSeed()
    ensures MatchesSearch(SeedCustomers()[0], "acme")
  {
    assert Lower("acme") == "acme";
    assert Lower("Acme Corporation") == "acme corporation";
    ContainsPrefix("acme corporation", "acme");
  }

  lemma AcmeSkipsSecondSeed()
    ensures !MatchesSearch(SeedCustomers()[1], "acme")
  {
    assert Lower("acme") == "acme";
    assert Lower("TechStart Inc") == "techstart inc";
    assert Lower("contact@techstart.com") == "contact@techstart.com";
    assert "techstart inc"[0] != 'a' && "contact@techstart.com"[0] != 'a';
    NoAcmeIn("techstart inc");
    NoAcmeIn("contact@techstart.com");
  }

  lemma AcmeSkipsThirdSeed()
    ensures !MatchesSearch(SeedCustomers()[2], "acme")
  {
    assert Lower("acme") == "acme";
    assert Lower("Global Solutions") == "global solutions";
    assert Lower("info@globalsolutions.com") == "info@globalsolutions.com";
    assert "global solutions"[0] != 'a' && "info@globalsolutions.com"[0] != 'a';
    NoAcmeIn("global solutions");
    NoAcmeIn("info@globalsolutions.com");
  }

  /** A string whose letter 'm' never stands where the 'm' of "acme" would
      have to does not include "acme". */
  lemma NoAcmeIn(s: string)
    requires |s| >= 4
    requires 'm' !in s[2..|s| - 1]
    ensures !Contains(s, "acme")
  {
    if Contains(s, "acme") {
      ContainsCharWindow(s, "acme", 2);
      assert false;
    }
  }

  /** After deleting `id`, no record has that id; every other record is
      still there, as many times as before, in its original relative order. */
  lemma DeleteSpec(customers: seq<Customer>, id: string)
    ensures IsSubsequence(DeleteById(customers, id), customers)
    ensures forall c :: c in DeleteById(customers, id) <==> c in customers && c.id != id
    ensures forall c :: multiset(DeleteById(customers, id))[c]
                        == if c.id != id then multiset(customers)[c] else 0
  {
    var p := (c: Customer) => c.id != id;
    forall c ensures c in DeleteById(customers, id) <==> c in customers && c.id != id {
      FilterMembership(customers, p, c);
    }
    forall c ensures multiset(DeleteById(customers, id))[c] == if c.id != id then multiset(customers)[c] else 0 {
      FilterCount(customers, p, c);
    }
  }

  /** Deleting an id no record has leaves the list unchanged. */
  lemma DeleteAbsentIsNoOp(customers: seq<Customer>, id: string)
    requires forall i :: 0 <= i < |customers| ==> customers[i].id != id
    ensures DeleteById(customers, id) == customers
  {
    FilterKeepsAll(customers, (c: Customer) => c.id != id);
  }

  /** Deleting the same id twice is deleting it once. */
  lemma DeleteTwiceIsOnce(customers: seq<Customer>, id: string)
    ensures DeleteById(DeleteById(customers, id), id) == DeleteById(customers, id)
  {
    FilterIdempotent(customers, (c: Customer) => c.id != id);
  }

  /** What the Budget column shows for a row. */
  datatype BudgetCell = NoBudget | Limits(soft: int, hard: int)

  function BudgetCellOf(c: Customer): (cell: BudgetCell)
    ensures cell == NoBudget <==> c.budgetTable.None?
    ensures cell.Limits? ==>
              cell.soft == c.budgetTable.value.softBudget && cell.hard == c.budgetTable.value.hardBudget
  {
    match c.budgetTable
    case None => NoBudget
    case Some(b) => Limits(b.softBudget, b.hardBudget)
  }

  /** The status badge text of a row. */
  function StatusLabel(c: Customer): (badge: string)
    ensures badge == "Blocked" <==> c.blocked
    ensures badge == "Active" <==> !c.blocked
  {
    if c.blocked then "Blocked" else "Active"
  }

  /** The page's state: the loaded customers and the search box. */
  class CustomerList {
    var customers: seq<Customer>
    var searchTerm: string

    /** The page once its simulated load has finished. */
    constructor ()
      ensures customers == SeedCustomers() && searchTerm == ""
    {
      customers := SeedCustomers();
      searchTerm := "";
    }

    /** The rows on screen; computing them reads the state and changes
        nothing. */
    function Visible(): (rows: seq<Customer>)
      reads this
      ensures IsSubsequence(rows, customers)
      ensures forall c :: c in rows <==> c in customers && MatchesSearch(c, searchTerm)
    {
      SearchSpec(customers, searchTerm);
      Search(customers, searchTerm)
    }

    /** Typing in the search box. */
    method SetSearchTerm(term: string)
      modifies this
      ensures searchTerm == term && customers == old(customers)
    {
      searchTerm := term;
    }

    /** The delete button of the row whose id is `id`. */
    method HandleDelete(id: string)
      modifies this
      ensures customers == DeleteById(old(customers), id)
      ensures searchTerm == old(searchTerm)
      ensures forall c :: c in customers ==> c.id != id
      ensures forall c :: c in old(customers) && c.id != id ==> c in customers
      ensures IsSubsequence(customers, old(customers))
    {
      DeleteSpec(customers, id);
      customers := DeleteById(customers, id);
    }
  }
}
