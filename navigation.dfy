/**
 * The assessment screen (src/pages/Index.tsx): the category filter, the
 * custom-category list, wrap-around navigation and the choice of screen.
 */
module Navigation {
  import opened Types

  /** The index after "next": one on, wrapping from the last question to the first. */
  function Next(i: int, len: int): (r: int)
    ensures 0 <= i < len - 1 ==> r == i + 1
    ensures 0 <= i < len ==> 0 <= r < len && (r == 0 <==> i == len - 1) && r == (i + 1) % len
  {
    if i < len - 1 then i + 1 else 0
  }

  /** The index after "previous": one back, wrapping from the first question to the last. */
  function Previous(i: int, len: int): (r: int)
    ensures 0 < i < len ==> r == i - 1
    ensures 0 <= i < len ==> 0 <= r < len && (r == len - 1 <==> i == 0) && r == (i - 1 + len) % len
  {
    if i > 0 then i - 1 else len - 1
  }

  /** Inside a non-empty list both moves stay inside it and undo each other. */
  lemma NavigationWraps(i: int, len: int)
    requires 0 <= i < len
    ensures 0 <= Next(i, len) < len && 0 <= Previous(i, len) < len
    ensures Previous(Next(i, len), len) == i && Next(Previous(i, len), len) == i
    ensures i == len - 1 ==> Next(i, len) == 0
    ensures i == 0 ==> Previous(i, len) == len - 1
  {
  }

  /** With a single question both moves stay at index 0. */
  lemma SingleQuestionStays()
    ensures Next(0, 1) == 0 && Previous(0, 1) == 0
  {
  }

  /** `filteredQuestions`: everything for "all", else the questions of that category in list order. */
  function Filtered(qs: seq<Question>, selected: string): (r: seq<Question>)
    ensures selected == "all" ==> r == qs
    ensures selected != "all" ==> forall q :: q in r <==> q in qs && q.category == selected
    ensures |r| <= |qs|
  {
    if selected == "all" then qs else WithCategory(qs, selected)
  }

  function WithCategory(qs: seq<Question>, c: string): (r: seq<Question>)
    ensures forall q :: q in r <==> q in qs && q.category == c
    ensures |r| <= |qs|
  {
    if qs == [] then []
    else (if qs[0].category == c then [qs[0]] else []) + WithCategory(qs[1..], c)
  }

  /** The filter keeps list order: filtering a concatenation concatenates the filtered parts. */
  lemma {:induction false} WithCategoryAppend(a: seq<Question>, b: seq<Question>, c: string)
    ensures WithCategory(a + b, c) == WithCategory(a, c) + WithCategory(b, c)
  {
    if a == [] {
      assert a + b == b;
    } else {
      assert (a + b)[1..] == a[1..] + b;
      WithCategoryAppend(a[1..], b, c);
    }
  }

  /** Scenario: three questions tagged M, E, N filtered to E leave one, and navigation stays on it. */
  lemma FilterScenario(m: Question, e: Question, n: Question)
    requires m.category == "M" && e.category == "E" && n.category == "N"
    ensures Filtered([m, e, n], "E") == [e]
    ensures Next(0, 1) == 0
  {
    assert [m, e, n][1..] == [e, n];
    assert [e, n][1..] == [n];
    assert [n][1..] == [];
    assert WithCategory([n], "E") == [];
    assert WithCategory([e, n], "E") == [e];
    assert WithCategory([m, e, n], "E") == [e];
  }

  /** The categories in first-occurrence order, each once. */
  function Distinct(s: seq<string>): (r: seq<string>)
    ensures forall x :: x in r <==> x in s
  {
    if s == [] then []
    else
      var r := Distinct(s[..|s| - 1]);
      if s[|s| - 1] in r then r else r + [s[|s| - 1]]
  }

  predicate NoDuplicates(s: seq<string>)
  {
    forall i, j :: 0 <= i < j < |s| ==> s[i] != s[j]
  }

  /** The position of the first occurrence of `x` in `s`. */
  function FirstIndex(s: seq<string>, x: string): (k: nat)
    requires x in s
    ensures k < |s| && s[k] == x && x !in s[..k]
  {
    if s[0] == x then 0 else
    assert s[1..][FirstIndex(s[1..], x)] == x;
    assert s[..FirstIndex(s[1..], x) + 1] == [s[0]] + s[1..][..FirstIndex(s[1..], x)];
    1 + FirstIndex(s[1..], x)
  }

  lemma FirstIndexOfPrefix(s: seq<string>, n: nat, x: string)
    requires n <= |s| && x in s[..n]
    ensures x in s && FirstIndex(s, x) == FirstIndex(s[..n], x)
  {
    var k := FirstIndex(s[..n], x);
    assert s[..k] == s[..n][..k];
    var j := FirstIndex(s, x);
  }

  /** `[...new Set(s)]`: no repeats, and the entries appear in the order of their first occurrences. */
  lemma {:induction false} DistinctOrder(s: seq<string>)
    ensures NoDuplicates(Distinct(s))
    ensures forall i, j :: 0 <= i < j < |Distinct(s)| ==> FirstIndex(s, Distinct(s)[i]) < FirstIndex(s, Distinct(s)[j])
  {
    if s != [] {
      var p := s[..|s| - 1];
      DistinctOrder(p);
      var r := Distinct(p);
      assert s[..|s| - 1] == p;
      forall x | x in r ensures FirstIndex(s, x) == FirstIndex(p, x) {
        FirstIndexOfPrefix(s, |s| - 1, x);
      }
      var last := s[|s| - 1];
      if last !in r {
        assert last !in p;
        assert FirstIndex(s, last) == |s| - 1;
        var d := Distinct(s);
        assert d == r + [last];
        forall i, j | 0 <= i < j < |d|
          ensures FirstIndex(s, d[i]) < FirstIndex(s, d[j])
        {
          assert d[i] == r[i];
          assert d[i] in r;
          if j < |r| { assert d[j] == r[j]; assert d[j] in r; }
        }
      }
    }
  }

  /** `customCategories`: the categories of the loaded questions other than M, E and N, each once. */
  function CustomCategories(qs: seq<Question>): (r: seq<string>)
    ensures forall c :: c in r ==> c !in DefaultCategories
    ensures forall q :: q in qs && q.category !in DefaultCategories ==> q.category in r
  {
    Distinct(NonDefaultCategories(qs))
  }

  /** The categories of the questions, in list order, with M, E and N dropped. */
  function NonDefaultCategories(qs: seq<Question>): (r: seq<string>)
    ensures forall c :: c in r <==> c !in DefaultCategories && exists q :: q in qs && q.category == c
  {
    if qs == [] then []
    else
      var rest := NonDefaultCategories(qs[1..]);
      assert forall q :: q in qs[1..] ==> q in qs;
      assert forall q :: q in qs ==> q == qs[0] || q in qs[1..];
      if qs[0].category in DefaultCategories then rest else [qs[0].category] + rest
  }

  /** The category list of a concatenation is the concatenation of the category lists. */
  lemma {:induction false} NonDefaultCategoriesAppend(a: seq<Question>, b: seq<Question>)
    ensures NonDefaultCategories(a + b) == NonDefaultCategories(a) + NonDefaultCategories(b)
  {
    if a == [] {
      assert a + b == b;
    } else {
      assert (a + b)[1..] == a[1..] + b;
      NonDefaultCategoriesAppend(a[1..], b);
    }
  }

  /** Some question of category `x` comes before every question of category `y`. */
  predicate Before(qs: seq<Question>, x: string, y: string)
  {
    exists k :: 0 <= k < |qs| && qs[k].category == x && forall m :: 0 <= m <= k ==> qs[m].category != y
  }

  lemma BeforeCons(qs: seq<Question>, x: string, y: string)
    requires qs != [] && qs[0].category != y && Before(qs[1..], x, y)
    ensures Before(qs, x, y)
  {
    var k :| 0 <= k < |qs[1..]| && qs[1..][k].category == x && forall m :: 0 <= m <= k ==> qs[1..][m].category != y;
    assert qs[k + 1].category == x;
    forall m | 0 <= m <= k + 1 ensures qs[m].category != y {
      if m > 0 { assert qs[m] == qs[1..][m - 1]; }
    }
  }

  /** A category listed earlier occurs in the questions before any question of the later one. */
  lemma {:induction false} FirstIndexOrder(qs: seq<Question>, x: string, y: string)
    requires x in NonDefaultCategories(qs) && y in NonDefaultCategories(qs)
    requires FirstIndex(NonDefaultCategories(qs), x) < FirstIndex(NonDefaultCategories(qs), y)
    ensures Before(qs, x, y)
  {
    var n := NonDefaultCategories(qs);
    var rest := NonDefaultCategories(qs[1..]);
    if qs[0].category in DefaultCategories {
      assert n == rest;
      assert qs[0].category != y;
      FirstIndexOrder(qs[1..], x, y);
      BeforeCons(qs, x, y);
    } else if qs[0].category == x {
      assert n[0] == x;
      assert qs[0].category != y;
      assert qs[0].category == x && forall m :: 0 <= m <= 0 ==> qs[m].category != y;
    } else {
      assert n == [qs[0].category] + rest;
      assert n[0] != y;
      assert n[1..] == rest;
      assert FirstIndex(n, x) == 1 + FirstIndex(rest, x);
      assert FirstIndex(n, y) == 1 + FirstIndex(rest, y);
      FirstIndexOrder(qs[1..], x, y);
      BeforeCons(qs, x, y);
    }
  }

  /** The custom categories never list a built-in tag, list each other tag once, in first-occurrence order. */
  lemma CustomCategoriesContract(qs: seq<Question>)
    ensures var r := CustomCategories(qs);
            NoDuplicates(r) &&
            (forall c :: c in r <==> c !in DefaultCategories && exists q :: q in qs && q.category == c) &&
            (forall i, j :: 0 <= i < j < |r| ==>
              FirstIndex(NonDefaultCategories(qs), r[i]) < FirstIndex(NonDefaultCategories(qs), r[j])) &&
            forall i, j :: 0 <= i < j < |r| ==> Before(qs, r[i], r[j])
  {
    var n := NonDefaultCategories(qs);
    var r := CustomCategories(qs);
    DistinctOrder(n);
    forall i, j | 0 <= i < j < |r| ensures Before(qs, r[i], r[j]) {
      FirstIndexOrder(qs, r[i], r[j]);
    }
  }

  /** What the page shows. */
  datatype Screen =
    | Spinner
    | NoQuestions                // nothing stored: the "go to settings" screen
    | EmptyFilter                // questions exist, none in the chosen category
    | Showing(question: Question, position: int, total: nat, arrows: bool)

  class IndexPage {
    var questions: seq<Question>
    var isLoading: bool
    var currentIndex: int
    var selectedCategory: string

    function FilteredQuestions(): seq<Question>
      reads this
    {
      Filtered(questions, selectedCategory)
    }

    /** The index points into the filtered list whenever it is non-empty, and is 0 otherwise or while loading. */
    ghost predicate Valid()
      reads this
    {
      && 0 <= currentIndex
      && (|FilteredQuestions()| == 0 || isLoading ==> currentIndex == 0)
      && (|FilteredQuestions()| > 0 ==> currentIndex < |FilteredQuestions()|)
    }

    constructor ()
      ensures Valid() && isLoading && questions == [] && currentIndex == 0 && selectedCategory == "all"
    {
      questions := [];
      isLoading := true;
      currentIndex := 0;
      selectedCategory := "all";
    }

    /** The one load on mount; a failed fetch has already become the empty list. */
    method Loaded(loaded: seq<Question>)
      requires Valid() && isLoading
      modifies this`questions, this`isLoading
      ensures Valid() && !isLoading && questions == loaded && currentIndex == old(currentIndex)
    {
      questions := loaded;
      isLoading := false;
    }

    /**
     * Choosing a category; the effect on `selectedCategory` resets the index to 0 only
     * when the value changed (picking the current category again is no change for React).
     */
    method SelectCategory(c: string)
      requires Valid()
      modifies this`selectedCategory, this`currentIndex
      ensures Valid() && selectedCategory == c
      ensures c != old(selectedCategory) ==> currentIndex == 0
      ensures c == old(selectedCategory) ==> currentIndex == old(currentIndex)
    {
      if c != selectedCategory {
        currentIndex := 0;
      }
      selectedCategory := c;
    }

    /** The arrows exist only while more than one question is in the filtered list. */
    predicate ArrowsShown()
      reads this
    {
      |FilteredQuestions()| > 1
    }

    method GoToNext()
      requires Valid() && !isLoading && ArrowsShown()
      modifies this`currentIndex
      ensures Valid() && currentIndex == Next(old(currentIndex), |FilteredQuestions()|)
    {
      NavigationWraps(currentIndex, |FilteredQuestions()|);
      currentIndex := if currentIndex < |FilteredQuestions()| - 1 then currentIndex + 1 else 0;
    }

    method GoToPrevious()
      requires Valid() && !isLoading && ArrowsShown()
      modifies this`currentIndex
      ensures Valid() && currentIndex == Previous(old(currentIndex), |FilteredQuestions()|)
    {
      NavigationWraps(currentIndex, |FilteredQuestions()|);
      currentIndex := if currentIndex > 0 then currentIndex - 1 else |FilteredQuestions()| - 1;
    }

    /** The screen: spinner, then "no questions", then "nothing in this category", else the current question. */
    function CurrentScreen(): (s: Screen)
      requires Valid()
      reads this
      ensures s.Spinner? <==> isLoading
      ensures s.NoQuestions? <==> !isLoading && questions == []
      ensures s.EmptyFilter? <==> !isLoading && questions != [] && FilteredQuestions() == []
      ensures s.Showing? ==> (s.question == FilteredQuestions()[currentIndex] &&
                s.position == currentIndex + 1 && s.total == |FilteredQuestions()| &&
                1 <= s.position <= s.total && (s.arrows <==> s.total > 1))
    {
      if isLoading then Spinner
      else if |questions| == 0 then NoQuestions
      else if |FilteredQuestions()| == 0 then EmptyFilter
      else
        var f := FilteredQuestions();
        Showing(f[currentIndex], currentIndex + 1, |f|, |f| > 1)
    }
  }
}
