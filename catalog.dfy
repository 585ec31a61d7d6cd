/** The tutorial catalog, its seed and the search filter of the tutorial list. */
module Catalog {
  import opened Text

  datatype Tutorial = Tutorial(
    id: string,
    title: string,
    tags: seq<string>,
    duration: string,
    difficulty: string,
    content: string,
    starter: string,
    answerHint: string)

  /** The seed catalog, with the starter documents shortened. */
  const SampleTutorials: seq<Tutorial> := [
    Tutorial("js-hello", "JavaScript — Hello World & Console", ["javascript", "beginner"], "5m", "Beginner",
      "Learn how console.log works.", "<script>function sayHello(){}</script>",
      "Return the string 'Hello, HyperLearn!' from sayHello()"),
    Tutorial("css-card", "CSS — Building a Glassmorphism Card", ["css", "design"], "10m", "Beginner",
      "Create a floating glass card with backdrop-filter and transitions.", "<div class=\"card\"></div>",
      "Use backdrop-filter: blur() and a translucent background color"),
    Tutorial("react-counter", "React — Tiny Counter (hooks)", ["react", "beginner"], "7m", "Beginner",
      "Build a counter using useState and make it persist to localStorage.", "<div id=app></div>",
      "Use useState and effect to sync to localStorage (or simple DOM + localStorage)")
  ]

  /**
   * The search test: the lower-cased title contains the lower-cased query, or the tags
   * joined with single spaces contain it. The tags themselves are not lower-cased.
   */
  predicate Matches(t: Tutorial, query: string)
    ensures query == "" ==> Matches(t, query)
    ensures ToLower(query) == ToLower(t.title) ==> Matches(t, query)
  {
    var q := ToLower(query);
    ContainsEmpty(ToLower(t.title));
    Contains(ToLower(t.title), q) || Contains(Join(t.tags, " "), q)
  }

  /** `tutorials.filter(t => ...)`: the matching tutorials, in catalog order. */
  function Filtered(tutorials: seq<Tutorial>, query: string): (r: seq<Tutorial>)
    ensures |r| <= |tutorials|
    ensures forall t :: t in r <==> t in tutorials && Matches(t, query)
  {
    if |tutorials| == 0 then []
    else
      assert tutorials == [tutorials[0]] + tutorials[1..];
      (if Matches(tutorials[0], query) then [tutorials[0]] else []) + Filtered(tutorials[1..], query)
  }

  /** `a` is `b` with some elements left out, the rest in the same order. */
  ghost predicate IsSubsequence<T>(a: seq<T>, b: seq<T>)
    decreases |b|
  {
    |a| == 0 || (|b| > 0 && ((a[0] == b[0] && IsSubsequence(a[1..], b[1..])) || IsSubsequence(a, b[1..])))
  }

  lemma {:induction false} FilteredIsSubsequence(tutorials: seq<Tutorial>, query: string)
    ensures IsSubsequence(Filtered(tutorials, query), tutorials)
  {
    if |tutorials| > 0 {
      var r := Filtered(tutorials, query);
      FilteredIsSubsequence(tutorials[1..], query);
      if Matches(tutorials[0], query) {
        assert r[1..] == Filtered(tutorials[1..], query);
      } else {
        assert r == Filtered(tutorials[1..], query);
      }
    }
  }

  /** Filtering a catalog filters each of its parts and keeps them in order. */
  lemma {:induction false} FilteredAppend(a: seq<Tutorial>, b: seq<Tutorial>, query: string)
    ensures Filtered(a + b, query) == Filtered(a, query) + Filtered(b, query)
  {
    if |a| > 0 {
      assert (a + b)[0] == a[0];
      assert (a + b)[1..] == a[1..] + b;
      FilteredAppend(a[1..], b, query);
    } else {
      assert a + b == b;
    }
  }

  /** A single tutorial survives the filter exactly when it matches. */
  lemma FilteredSingleton(t: Tutorial, query: string)
    ensures Filtered([t], query) == if Matches(t, query) then [t] else []
  {
    assert [t][1..] == [];
  }

  /** The empty query (the initial search box) lists the whole catalog. */
  lemma {:induction false} FilteredEmptyQuery(tutorials: seq<Tutorial>)
    ensures Filtered(tutorials, "") == tutorials
  {
    if |tutorials| > 0 {
      ContainsEmpty(ToLower(tutorials[0].title));
      FilteredEmptyQuery(tutorials[1..]);
    }
  }

  /** Searching the search result again changes nothing. */
  lemma {:induction false} FilteredIdempotent(tutorials: seq<Tutorial>, query: string)
    ensures Filtered(Filtered(tutorials, query), query) == Filtered(tutorials, query)
  {
    if |tutorials| > 0 {
      var t := tutorials[0];
      var rest := Filtered(tutorials[1..], query);
      FilteredIdempotent(tutorials[1..], query);
      assert Filtered(rest, query) == rest;
      if Matches(t, query) {
        assert Filtered(tutorials, query) == [t] + rest;
        FilteredAppend([t], rest, query);
        FilteredSingleton(t, query);
        assert Filtered([t] + rest, query) == [t] + rest;
      } else {
        assert Filtered(tutorials, query) == [] + rest == rest;
      }
    }
  }

  /** A lower-case query naming one of a tutorial's tags finds that tutorial. */
  lemma TagQueryMatches(t: Tutorial, query: string)
    requires query in t.tags
    requires ToLower(query) == query
    ensures Matches(t, query)
  {
    var k :| 0 <= k < |t.tags| && t.tags[k] == query;
    JoinContainsPart(t.tags, " ", k);
  }

  /** Because the tags are not lower-cased, a tag spelled in capitals is never found through the tags. */
  lemma UpperCaseTagMissed()
    ensures var t := Tutorial("t", "", ["CSS"], "", "", "", "", "");
            !Matches(t, "CSS")
  {
    var t := Tutorial("t", "", ["CSS"], "", "", "", "", "");
    var q := ToLower("CSS");
    assert q == "css";
    assert Join(t.tags, " ") == "CSS";
    assert ToLower(t.title) == "";
    forall i | 0 <= i <= 3 ensures !StartsWith("CSS"[i..], q) {
      if i == 0 { assert "CSS"[..3][0] != q[0]; }
    }
  }
}
