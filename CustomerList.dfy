// The customer list (src/components/CustomerList.tsx): the pending/processed
// tabs, the optional name-or-phone search, and the two tab counters. All of it
// is pure filtering of the customer list; the tab and the query are inputs.
// Lower-casing maps the ASCII letters A-Z and leaves every other character
// alone; `includes` is substring containment.
module CustomerList {
  import opened Wrappers
  import opened Types
  import opened Seqs

  datatype Tab = PendingTab | ProcessedTab

  /** `isProcessed` read as JavaScript truthiness: absent counts as not processed. */
  predicate IsProcessed(c: Customer)
  {
    c.isProcessed == Some(true)
  }

  predicate InTab(c: Customer, tab: Tab)
  {
    match tab
    case PendingTab => !IsProcessed(c)
    case ProcessedTab => IsProcessed(c)
  }

  function LowerChar(ch: char): char
  {
    if 'A' <= ch <= 'Z' then (ch as int + 32) as char else ch
  }

  /**
   * `toLowerCase`, character by character: no capital letter survives, and a
   * character changes exactly when it is a capital, into a small letter.
   */
  function Lower(s: string): (r: string)
    ensures |r| == |s|
    ensures forall i :: 0 <= i < |r| ==> !('A' <= r[i] <= 'Z')
    ensures forall i :: 0 <= i < |r| ==> (r[i] != s[i] <==> 'A' <= s[i] <= 'Z')
    ensures forall i :: 0 <= i < |r| && 'A' <= s[i] <= 'Z' ==> 'a' <= r[i] <= 'z'
  {
    seq(|s|, i requires 0 <= i < |s| => LowerChar(s[i]))
  }

  /** `sub` occurs in `s` starting at index `i`. */
  predicate OccursAt(s: string, sub: string, i: nat)
  {
    i + |sub| <= |s| && s[i..i + |sub|] == sub
  }

  /** `s.includes(sub)`. */
  predicate Contains(s: string, sub: string)
  {
    exists i: nat | i <= |s| :: OccursAt(s, sub, i)
  }

  /** The characters `trim` removes: ECMAScript white space and line terminators. */
  predicate IsWhiteSpace(ch: char)
  {
    ch == '\t' || ch == '\n' || ch == '\U{000B}' || ch == '\U{000C}' || ch == '\r' || ch == ' ' ||
    ch == '\U{00A0}' || ch == '\U{1680}' || ('\U{2000}' <= ch <= '\U{200A}') ||
    ch == '\U{2028}' || ch == '\U{2029}' || ch == '\U{202F}' || ch == '\U{205F}' ||
    ch == '\U{3000}' || ch == '\U{FEFF}'
  }

  function TrimStart(s: string): string
  {
    if s != [] && IsWhiteSpace(s[0]) then TrimStart(s[1..]) else s
  }

  function TrimEnd(s: string): string
  {
    if s != [] && IsWhiteSpace(s[|s| - 1]) then TrimEnd(s[..|s| - 1]) else s
  }

  /** `s.trim()`. */
  function Trim(s: string): string
  {
    TrimEnd(TrimStart(s))
  }

  /** A query trims to nothing exactly when it is all white space. */
  lemma {:induction false} TrimEmptyIffBlank(s: string)
    ensures Trim(s) == [] <==> forall i :: 0 <= i < |s| ==> IsWhiteSpace(s[i])
  {
    TrimStartEmptyIffBlank(s);
    var t := TrimStart(s);
    TrimEndEmptyIffBlank(t);
    if t != [] {
      assert !IsWhiteSpace(t[0]);
    }
  }

  lemma {:induction false} TrimStartEmptyIffBlank(s: string)
    ensures TrimStart(s) == [] <==> forall i :: 0 <= i < |s| ==> IsWhiteSpace(s[i])
    ensures TrimStart(s) != [] ==> !IsWhiteSpace(TrimStart(s)[0])
  {
    if s != [] && IsWhiteSpace(s[0]) {
      TrimStartEmptyIffBlank(s[1..]);
      assert forall i :: 1 <= i < |s| ==> s[i] == s[1..][i - 1];
    }
  }

  lemma {:induction false} TrimEndEmptyIffBlank(s: string)
    ensures TrimEnd(s) == [] <==> forall i :: 0 <= i < |s| ==> IsWhiteSpace(s[i])
  {
    if s != [] && IsWhiteSpace(s[|s| - 1]) {
      TrimEndEmptyIffBlank(s[..|s| - 1]);
      assert forall i :: 0 <= i < |s| - 1 ==> s[i] == s[..|s| - 1][i];
    }
  }

  /** The search test, given the lower-cased query: name (lower-cased) or phone contains it. */
  predicate Matches(c: Customer, query: string)
  {
    Contains(Lower(c.name), query) || Contains(c.phone, query)
  }

  /** The customers of one tab, in list order. */
  function TabCustomers(customers: seq<Customer>, tab: Tab): seq<Customer>
  {
    Filter(customers, (c: Customer) => InTab(c, tab))
  }

  /** `filteredCustomers`: the tab's customers, then the search when the trimmed query is non-empty. */
  function FilteredCustomers(customers: seq<Customer>, tab: Tab, searchQuery: string): seq<Customer>
  {
    var inTab := TabCustomers(customers, tab);
    if Trim(searchQuery) != [] then
      var query := Lower(searchQuery);
      Filter(inTab, (c: Customer) => Matches(c, query))
    else inTab
  }

  /** The selection test `FilteredCustomers` applies to one customer. */
  predicate Selected(c: Customer, tab: Tab, searchQuery: string)
  {
    InTab(c, tab) && (Trim(searchQuery) != [] ==> Matches(c, Lower(searchQuery)))
  }

  /** The result is exactly the listed customers that pass the tab and the search. */
  lemma FilteredCustomersMembership(customers: seq<Customer>, tab: Tab, searchQuery: string, c: Customer)
    ensures c in FilteredCustomers(customers, tab, searchQuery) <==>
      c in customers && Selected(c, tab, searchQuery)
  {
    FilteredIsOneFilter(customers, tab, searchQuery);
    FilterMembership(customers, (x: Customer) => Selected(x, tab, searchQuery), c);
  }

  /** The tab filter followed by the search is one filter by the combined test. */
  lemma FilteredIsOneFilter(customers: seq<Customer>, tab: Tab, searchQuery: string)
    ensures FilteredCustomers(customers, tab, searchQuery) ==
      Filter(customers, (x: Customer) => Selected(x, tab, searchQuery))
  {
    var inTab := (c: Customer) => InTab(c, tab);
    var selected := (x: Customer) => Selected(x, tab, searchQuery);
    if Trim(searchQuery) != [] {
      var query := Lower(searchQuery);
      FilterFilter(customers, inTab, (c: Customer) => Matches(c, query), selected);
    } else {
      FilterFilter(customers, inTab, (c: Customer) => true, selected);
      FilterAll(Filter(customers, inTab), (c: Customer) => true);
    }
  }

  /** The result keeps the original order: it is a subsequence of the customer list. */
  lemma FilteredCustomersIsSubsequence(customers: seq<Customer>, tab: Tab, searchQuery: string)
    ensures IsSubsequence(FilteredCustomers(customers, tab, searchQuery), customers)
  {
    FilteredIsOneFilter(customers, tab, searchQuery);
    FilterIsSubsequence(customers, (x: Customer) => Selected(x, tab, searchQuery));
  }

  /** A query that trims to nothing leaves the tab's customers untouched. */
  lemma BlankQueryKeepsTab(customers: seq<Customer>, tab: Tab, searchQuery: string)
    requires forall i :: 0 <= i < |searchQuery| ==> IsWhiteSpace(searchQuery[i])
    ensures FilteredCustomers(customers, tab, searchQuery) == TabCustomers(customers, tab)
  {
    TrimEmptyIffBlank(searchQuery);
  }

  /** Searching only narrows: the result is a subsequence of the tab's unsearched list. */
  lemma SearchNarrows(customers: seq<Customer>, tab: Tab, searchQuery: string)
    ensures IsSubsequence(FilteredCustomers(customers, tab, searchQuery), FilteredCustomers(customers, tab, ""))
  {
    FilteredIsOneFilter(customers, tab, searchQuery);
    FilteredIsOneFilter(customers, tab, "");
    FilterStronger(customers,
      (x: Customer) => Selected(x, tab, searchQuery), (x: Customer) => Selected(x, tab, ""));
  }

  /** Lower-casing twice is lower-casing once. */
  lemma LowerIdempotent(s: string)
    ensures Lower(Lower(s)) == Lower(s)
  {
  }

  /** The search ignores the case of the query: an upper-case query selects what its lower-case form does. */
  lemma SearchIgnoresQueryCase(customers: seq<Customer>, tab: Tab, searchQuery: string)
    ensures FilteredCustomers(customers, tab, searchQuery) == FilteredCustomers(customers, tab, Lower(searchQuery))
  {
    var lowered := Lower(searchQuery);
    LowerIdempotent(searchQuery);
    TrimEmptyIffBlank(searchQuery);
    TrimEmptyIffBlank(lowered);
    assert forall i :: 0 <= i < |searchQuery| ==> (IsWhiteSpace(lowered[i]) <==> IsWhiteSpace(searchQuery[i]));
  }

  /** `customers.filter(c => !c.isProcessed).length`. */
  function PendingCount(customers: seq<Customer>): nat
  {
    |TabCustomers(customers, PendingTab)|
  }

  /** `customers.filter(c => c.isProcessed).length`. */
  function ProcessedCount(customers: seq<Customer>): nat
  {
    |TabCustomers(customers, ProcessedTab)|
  }

  /** Every customer is counted in exactly one tab. */
  lemma CountsCoverList(customers: seq<Customer>)
    ensures PendingCount(customers) + ProcessedCount(customers) == |customers|
  {
    FilterComplementLengths(customers,
      (c: Customer) => InTab(c, PendingTab), (c: Customer) => InTab(c, ProcessedTab));
  }
}
