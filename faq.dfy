/**
 * The FAQ page's filtering (frontend/src/app/components/faq/faq.component.ts):
 * a case-insensitive substring search over question and answer, combined with
 * an optional category, applied to a fixed list of entries in its own order.
 */
module Faq {
  import opened Wrappers
  import Seqs

  datatype FaqEntry = FaqEntry(id: int, category: string, question: string, answer: string)

  /** The four category buttons, in display order. */
  const Categories: seq<string> := ["General", "Customers", "Purpose", "Suppliers"]

  /** The page's fixed list of entries. */
  const DefaultFaqs: seq<FaqEntry> := [
    FaqEntry(1, "General", "What is Le Mart?",
      "Le Mart is a people-first retailer offering unbeatable prices on everything from groceries to electronics."),
    FaqEntry(2, "General", "What are Le Mart's store hours?",
      "All Le Mart locations operate from Monday to Friday: 8AM–10PM and Saturday to Sunday: 8AM–11PM. You can find your nearest store using our store locator tool on our website."),
    FaqEntry(3, "General", "In which countries does Le Mart operate?",
      "Today, Le Mart operates more than 10,500 stores and clubs in 19 countries and eCommerce websites."),
    FaqEntry(4, "General", "How many people work at Le Mart?",
      "As of the end of FY2024, Le Mart employed approximately 2.1 million associates worldwide, with approximately 1.6 million associates in the U.S."),
    FaqEntry(5, "Customers", "What if I have a question about customer support?",
      "Contact our Customer Service team to provide a comment or ask a question about your local store or our corporate headquarters."),
    FaqEntry(6, "Customers", "Do I have to use self-checkout?",
      "If you prefer checking out with a cashier, we will continue to have that option available for customers who prefer that method."),
    FaqEntry(7, "Customers", "Does Le Mart allow animals in its stores?",
      "Le Mart welcomes service animals as defined by the ADA in our stores."),
    FaqEntry(8, "Customers", "Can I film inside a Le Mart store?",
      "Unauthorized filming is prohibited and we reserve the right to enforce that policy."),
    FaqEntry(9, "Customers", "What is your return policy?",
      "Most items can be returned within 90 days. Le Mart brand items have a 1-year return window with receipt."),
    FaqEntry(10, "Customers", "How long does shipping take for orders?",
      "Standard shipping typically takes 5-7 business days. Expedited options are available at checkout."),
    FaqEntry(11, "Purpose", "What does Le Mart do for local communities?",
      "Over the years, Le Mart has been intentional about leveraging our strengths, associates and other resources to build resiliency in communities."),
    FaqEntry(12, "Purpose", "How much do Le Mart associates make?",
      "We are continuously investing in higher wages, and the average hourly wage for our U.S. frontline associates is close to $18."),
    FaqEntry(13, "Purpose", "What is Le Mart doing about hunger?",
      "Serving communities lies at the heart of our mission to save people money and help them live better by providing convenient access to affordable food."),
    FaqEntry(14, "Purpose", "What is Le Mart doing to minimize packaging waste?",
      "Our ambition is to accelerate a transition to 100% reusable, recyclable, or industrially compostable packaging."),
    FaqEntry(15, "Purpose", "What is Le Mart doing about plastic waste?",
      "We're exploring ways to design packaging with recyclability in mind, while reducing the amount of plastic used in our operations."),
    FaqEntry(16, "Suppliers", "Where in the world does Le Mart source its products?",
      "Most of the products we source for our retail businesses in the U.S. and other major markets were made, grown or assembled domestically."),
    FaqEntry(17, "Suppliers", "What payment methods do you accept from suppliers?",
      "We accept all major credit cards, bank transfers, and Le Mart procurement cards.")
  ]

  // ---------------------------------------------------------------------------
  // Case folding (`toLowerCase`), restricted to the ASCII letters

  function LowerChar(c: char): char
  {
    if 'A' <= c <= 'Z' then (c as int + 32) as char else c
  }

  function UpperChar(c: char): char
  {
    if 'a' <= c <= 'z' then (c as int - 32) as char else c
  }

  /** Lower-casing keeps the length, turns each upper-case letter into its lower-case partner and changes nothing else. */
  function ToLower(s: string): (r: string)
    ensures |r| == |s|
    ensures forall i :: 0 <= i < |r| ==> !('A' <= r[i] <= 'Z')
    ensures forall i :: 0 <= i < |s| && !('A' <= s[i] <= 'Z') ==> r[i] == s[i]
    ensures forall i :: 0 <= i < |s| && 'A' <= s[i] <= 'Z' ==> r[i] as int == s[i] as int + 32
  {
    seq(|s|, i requires 0 <= i < |s| => LowerChar(s[i]))
  }

  function ToUpper(s: string): (r: string)
    ensures |r| == |s|
  {
    seq(|s|, i requires 0 <= i < |s| => UpperChar(s[i]))
  }

  /** Lower-casing forgets any earlier upper-casing. */
  lemma LowerOfUpper(s: string)
    ensures ToLower(ToUpper(s)) == ToLower(s)
  {
    forall i | 0 <= i < |s| ensures LowerChar(UpperChar(s[i])) == LowerChar(s[i]) {
    }
  }

  /** `String.prototype.includes`: `needle` is a prefix of `hay` or of one of its suffixes. */
  predicate Includes(hay: string, needle: string)
    decreases |hay|
    ensures Includes(hay, needle) ==> |needle| <= |hay|
  {
    needle <= hay || (hay != [] && Includes(hay[1..], needle))
  }

  /** `needle` occurs in `hay` starting at position `i`. */
  predicate OccursAt(hay: string, needle: string, i: int)
  {
    0 <= i && i + |needle| <= |hay| && hay[i..i + |needle|] == needle
  }

  /** `Includes` holds exactly when `needle` occurs in `hay` at some position. */
  lemma {:induction false} IncludesIff(hay: string, needle: string)
    ensures Includes(hay, needle) <==> exists i :: OccursAt(hay, needle, i)
  {
    if needle <= hay {
      assert OccursAt(hay, needle, 0);
    } else if hay == [] {
    } else {
      IncludesIff(hay[1..], needle);
      if exists i :: OccursAt(hay, needle, i) {
        var i :| OccursAt(hay, needle, i);
        if i > 0 {
          assert hay[1..][i - 1..i - 1 + |needle|] == hay[i..i + |needle|];
          assert OccursAt(hay[1..], needle, i - 1);
        }
      }
      if Includes(hay[1..], needle) {
        var k :| OccursAt(hay[1..], needle, k);
        assert hay[k + 1..k + 1 + |needle|] == hay[1..][k..k + |needle|];
        assert OccursAt(hay, needle, k + 1);
      }
    }
  }

  // ---------------------------------------------------------------------------
  // The filter predicate of filterFAQs

  /** An empty query matches everything; otherwise the query must occur, ignoring case, in the question or the answer. */
  predicate MatchesSearch(f: FaqEntry, query: string)
  {
    query == ""
    || Includes(ToLower(f.question), ToLower(query))
    || Includes(ToLower(f.answer), ToLower(query))
  }

  /** No category, or the empty one, matches everything; otherwise the categories must be equal. */
  predicate MatchesCategory(f: FaqEntry, category: Option<string>)
  {
    category.None? || category.value == "" || f.category == category.value
  }

  predicate Matches(f: FaqEntry, query: string, category: Option<string>)
  {
    MatchesSearch(f, query) && MatchesCategory(f, category)
  }

  /** The entries of `faqs` that match both criteria, in list order. */
  function Filtered(faqs: seq<FaqEntry>, query: string, category: Option<string>): (r: seq<FaqEntry>)
    ensures forall f :: f in r <==> f in faqs && Matches(f, query, category)
    ensures category.Some? && category.value != "" ==> forall f :: f in r ==> f.category == category.value
  {
    Seqs.Filter(faqs, (f: FaqEntry) => Matches(f, query, category))
  }

  /** The filtered list is a sub-sequence of the full list: nothing is reordered. */
  lemma FilteredIsSubsequence(faqs: seq<FaqEntry>, query: string, category: Option<string>)
    ensures Seqs.IsSubsequence(Filtered(faqs, query, category), faqs)
  {
    Seqs.FilterIsSubsequence(faqs, (f: FaqEntry) => Matches(f, query, category));
  }

  /** With no query and no category the whole list is shown. */
  lemma FilteredUnrestricted(faqs: seq<FaqEntry>)
    ensures Filtered(faqs, "", None) == faqs
  {
    Seqs.FilterKeepsAll(faqs, (f: FaqEntry) => Matches(f, "", None));
  }

  /** Queries that agree after lower-casing select the same entries. */
  lemma FilteredCaseInsensitive(faqs: seq<FaqEntry>, q1: string, q2: string, category: Option<string>)
    requires ToLower(q1) == ToLower(q2)
    ensures Filtered(faqs, q1, category) == Filtered(faqs, q2, category)
  {
    assert |q1| == |q2|;
    Seqs.FilterCongruent(faqs, (f: FaqEntry) => Matches(f, q1, category), (f: FaqEntry) => Matches(f, q2, category));
  }

  /** In particular, typing the query in capitals changes nothing. */
  lemma FilteredIgnoresUpperCase(faqs: seq<FaqEntry>, query: string, category: Option<string>)
    ensures Filtered(faqs, ToUpper(query), category) == Filtered(faqs, query, category)
  {
    LowerOfUpper(query);
    FilteredCaseInsensitive(faqs, ToUpper(query), query, category);
  }

  // ---------------------------------------------------------------------------
  // getCategoryCount

  /** The number of entries in category `c`. */
  function CategoryCount(faqs: seq<FaqEntry>, c: string): (n: nat)
    ensures n <= |faqs|
  {
    |Seqs.Filter(faqs, (f: FaqEntry) => f.category == c)|
  }

  /** The counts of the categories in `cats`, added up. */
  function CountsSum(faqs: seq<FaqEntry>, cats: seq<string>): nat
  {
    if cats == [] then 0 else CategoryCount(faqs, cats[0]) + CountsSum(faqs, cats[1..])
  }

  /** How many times `c` is listed in `cats`. */
  function Occurrences(cats: seq<string>, c: string): nat
  {
    if cats == [] then 0 else (if cats[0] == c then 1 else 0) + Occurrences(cats[1..], c)
  }

  lemma {:induction false} CategoryCountCons(f: FaqEntry, rest: seq<FaqEntry>, c: string)
    ensures CategoryCount([f] + rest, c) == (if f.category == c then 1 else 0) + CategoryCount(rest, c)
  {
    assert ([f] + rest)[1..] == rest;
  }

  lemma {:induction false} CountsSumCons(f: FaqEntry, rest: seq<FaqEntry>, cats: seq<string>)
    ensures CountsSum([f] + rest, cats) == Occurrences(cats, f.category) + CountsSum(rest, cats)
  {
    if cats != [] {
      CategoryCountCons(f, rest, cats[0]);
      CountsSumCons(f, rest, cats[1..]);
    }
  }

  lemma {:induction false} OccursOnce(cats: seq<string>, c: string)
    requires forall i, j :: 0 <= i < j < |cats| ==> cats[i] != cats[j]
    requires c in cats
    ensures Occurrences(cats, c) == 1
  {
    if cats[0] == c {
      OccursNever(cats[1..], c);
    } else {
      OccursOnce(cats[1..], c);
    }
  }

  lemma {:induction false} OccursNever(cats: seq<string>, c: string)
    requires c !in cats
    ensures Occurrences(cats, c) == 0
  {
    if cats != [] {
      OccursNever(cats[1..], c);
    }
  }

  /**
   * When the category list has no repeats and covers every entry's category,
   * the per-category counts add up to the number of entries.
   */
  lemma {:induction false} CountsSumIsTotal(faqs: seq<FaqEntry>, cats: seq<string>)
    requires forall i, j :: 0 <= i < j < |cats| ==> cats[i] != cats[j]
    requires forall k :: 0 <= k < |faqs| ==> faqs[k].category in cats
    ensures CountsSum(faqs, cats) == |faqs|
  {
    if faqs == [] {
      if cats != [] {
        CountsSumEmpty(cats);
      }
    } else {
      assert faqs == [faqs[0]] + faqs[1..];
      CountsSumCons(faqs[0], faqs[1..], cats);
      OccursOnce(cats, faqs[0].category);
      assert faqs[0].category in cats;
      CountsSumIsTotal(faqs[1..], cats);
    }
  }

  lemma {:induction false} CountsSumEmpty(cats: seq<string>)
    ensures CountsSum([], cats) == 0
  {
    if cats != [] {
      CountsSumEmpty(cats[1..]);
    }
  }

  /** On the page's own list, the four category badges add up to all seventeen entries. */
  lemma DefaultCountsSum()
    ensures CountsSum(DefaultFaqs, Categories) == |DefaultFaqs| == 17
  {
    var cats := Categories;
    forall k | 0 <= k < |DefaultFaqs| ensures DefaultFaqs[k].category in cats {
      var c := DefaultFaqs[k].category;
      assert c == cats[0] || c == cats[1] || c == cats[2] || c == cats[3];
    }
    CountsSumIsTotal(DefaultFaqs, cats);
  }

  // ---------------------------------------------------------------------------
  // The component

  class FaqComponent {
    /** Bound to the search box; the page assigns it directly. */
    var searchQuery: string
    var selectedCategory: Option<string>
    const categories: seq<string>
    const faqs: seq<FaqEntry>
    var filteredFAQs: seq<FaqEntry>

    /** The page opens with no criteria and the whole list shown (by FilteredUnrestricted, what the filter yields for no criteria). */
    constructor ()
      ensures categories == Categories && faqs == DefaultFaqs
      ensures searchQuery == "" && selectedCategory == None
      ensures filteredFAQs == faqs
    {
      categories := Categories;
      faqs := DefaultFaqs;
      searchQuery := "";
      selectedCategory := None;
      filteredFAQs := faqs;
    }

    /** filterFAQs: show the entries matching the current query and category. */
    method FilterFAQs()
      modifies this`filteredFAQs
      ensures filteredFAQs == Filtered(faqs, searchQuery, selectedCategory)
    {
      filteredFAQs := Filtered(faqs, searchQuery, selectedCategory);
    }

    /** selectCategory: choose a category (or none) and refilter. */
    method SelectCategory(category: Option<string>)
      modifies this`selectedCategory, this`filteredFAQs
      ensures selectedCategory == category
      ensures filteredFAQs == Filtered(faqs, searchQuery, category)
    {
      selectedCategory := category;
      FilterFAQs();
    }

    /** getCategoryCount: the number of entries in a category. */
    function GetCategoryCount(category: string): (n: nat)
      ensures n == CategoryCount(faqs, category)
      ensures n <= |faqs|
    {
      CategoryCount(faqs, category)
    }
  }
}
