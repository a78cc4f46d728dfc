/** The slide controller of App.tsx: the reveal gate, the chapter counter, the
    per-chapter message cache and the loading flag, with the four handlers that
    change them. Each handler runs to completion before the next one starts. */
module App {
  import Gemini

  /** Number of chapters; also the length of the message cache. */
  const PageCount: int := 6

  /** Last chapter index; `nextPage` stops here. */
  const LastPage: int := PageCount - 1

  /** Chapter headings, indexed by page. */
  const Titles: seq<string> := [
    "La Prueba de la Distancia",
    "El Puente de la Confianza",
    "El Susurro de las Palabras",
    "El Cultivo de la Paciencia",
    "La Visión del Futuro",
    "El Sello de la Eternidad"
  ]

  /** There is one prompt and one title per chapter. */
  lemma OnePromptPerChapter()
    ensures |Gemini.Prompts| == PageCount == |Titles|
  {
  }

  /** What the letter card shows in place of the message. */
  datatype Body = Spinner | Quote(text: string)

  /** The screen: the intro gate, or one chapter with its number, heading and body. */
  datatype Screen = Intro | Chapter(number: int, title: string, body: Body)

  /** No page occurs twice in `s`. */
  ghost predicate Distinct(s: seq<int>) {
    forall i, j :: 0 <= i < j < |s| ==> s[i] != s[j]
  }

  /** The pages occurring in `s`. */
  ghost function Pages(s: seq<int>): (pages: set<int>) {
    set x | x in s
  }

  lemma {:induction false} DistinctPagesCount(s: seq<int>)
    requires Distinct(s)
    ensures |Pages(s)| == |s|
  {
    if s != [] {
      var t := s[1..];
      assert Distinct(t) by {
        forall i, j | 0 <= i < j < |t| ensures t[i] != t[j] {
          assert t[i] == s[i + 1] && t[j] == s[j + 1];
        }
      }
      DistinctPagesCount(t);
      assert s[0] !in Pages(t) by {
        forall k | 0 <= k < |t| ensures t[k] != s[0] {
          assert t[k] == s[k + 1];
        }
      }
      assert Pages(s) == Pages(t) + {s[0]} by {
        assert s == [s[0]] + t;
      }
    }
  }

  /** The pages 0 .. n-1. */
  ghost function Below(n: nat): (r: set<int>)
    ensures forall x :: x in r <==> 0 <= x < n
    ensures |r| == n
  {
    if n == 0 then {} else Below(n - 1) + {n - 1}
  }

  /** A log of pages without repetition, all valid chapter indices, has at most one
      entry per chapter. */
  lemma AtMostOneCallPerPage(s: seq<int>)
    requires Distinct(s)
    requires forall x :: x in s ==> 0 <= x < PageCount
    ensures |s| <= PageCount
  {
    DistinctPagesCount(s);
    WithinBelowCount(Pages(s), PageCount);
  }

  lemma {:induction false} WithinBelowCount(p: set<int>, n: nat)
    requires p <= Below(n)
    ensures |p| <= n
  {
    if n > 0 {
      var q := p - {n - 1};
      assert q <= Below(n - 1);
      WithinBelowCount(q, n - 1);
      assert |p| <= |q| + 1 by {
        if n - 1 in p {
          assert p == q + {n - 1};
        } else {
          assert p == q;
        }
      }
    }
  }

  class Slideshow {
    var revealed: bool
    var currentPage: int
    var messages: array<string>
    var loading: bool

    /** The pages for which the text generator was called, in call order. */
    ghost var fetched: seq<int>

    /** The state every handler keeps: the page is a chapter index, the cache has one
        slot per chapter, no load is in flight between handlers, and a slot is filled
        exactly when its page was fetched, each page at most once. */
    ghost predicate Consistent()
      reads this, messages
    {
      messages.Length == PageCount &&
      0 <= currentPage <= LastPage &&
      !loading &&
      Distinct(fetched) &&
      (forall x :: x in fetched ==> 0 <= x < PageCount) &&
      (forall i :: 0 <= i < PageCount ==> (messages[i] != "" <==> i in fetched))
    }

    /** Consistent, and every chapter reachable so far has its text: the pages
        1 .. currentPage, and page 0 once the letter is revealed. */
    ghost predicate Valid()
      reads this, messages
    {
      Consistent() &&
      (forall i :: 1 <= i <= currentPage ==> messages[i] != "") &&
      (revealed ==> messages[0] != "")
    }

    /** No cached text was dropped or replaced between the two states. */
    twostate predicate CacheKept()
      reads this, messages
      requires old(messages.Length) == PageCount == messages.Length
    {
      forall i :: 0 <= i < PageCount && old(messages[i]) != "" ==> messages[i] == old(messages[i])
    }

    /** The initial component state: closed, page 0, six empty slots, not loading. */
    constructor ()
      ensures Valid() && fresh(messages)
      ensures !revealed && currentPage == 0 && !loading
      ensures messages[..] == seq(PageCount, _ => "")
      ensures fetched == []
    {
      revealed := false;
      currentPage := 0;
      messages := new string[PageCount](_ => "");
      loading := false;
      fetched := [];
    }

    /** loadStep: a filled slot is returned as is; an empty one is filled with the
        generator's text for that page, in a copy of the cache that replaces it.
        `api` is the outcome of the model call for each request text. */
    method LoadStep(step: int, api: string -> Gemini.Outcome)
      requires Consistent()
      requires 0 <= step < PageCount
      modifies this
      ensures Consistent()
      ensures revealed == old(revealed) && currentPage == old(currentPage)
      ensures old(messages[step]) != "" ==>
        messages == old(messages) && fetched == old(fetched)
      ensures old(messages[step]) == "" ==>
        messages[..] == old(messages[..])[step := Gemini.GenerateLoveStep(step, api)] &&
        fetched == old(fetched) + [step]
      ensures old(messages[step]) == "" ==> fresh(messages)
      ensures messages[step] != ""
      ensures CacheKept()
    {
      if messages[step] != "" {
        return;
      }
      loading := true;
      var text := Gemini.GenerateLoveStep(step, api);
      var next := new string[PageCount];
      forall i | 0 <= i < PageCount {
        next[i] := messages[i];
      }
      next[step] := text;
      messages := next;
      fetched := fetched + [step];
      loading := false;
      assert Distinct(fetched) by {
        assert step !in old(fetched);
      }
    }

    /** handleReveal: open the letter and load chapter 0. It has no guard against a
        second reveal; once slot 0 is filled a repeat changes nothing. */
    method HandleReveal(api: string -> Gemini.Outcome)
      requires Valid()
      modifies this
      ensures Valid()
      ensures revealed && currentPage == old(currentPage)
      ensures old(messages[0]) != "" ==>
        messages == old(messages) && fetched == old(fetched)
      ensures old(messages[0]) == "" ==>
        messages[..] == old(messages[..])[0 := Gemini.GenerateLoveStep(0, api)] &&
        fetched == old(fetched) + [0]
      ensures old(messages[0]) == "" ==> fresh(messages)
      ensures CacheKept()
    {
      revealed := true;
      LoadStep(0, api);
    }

    /** nextPage: below the last chapter, move forward one page and load it; on the
        last chapter, nothing happens. */
    method NextPage(api: string -> Gemini.Outcome)
      requires Valid()
      modifies this
      ensures Valid()
      ensures revealed == old(revealed)
      ensures old(currentPage) < LastPage ==> currentPage == old(currentPage) + 1
      ensures old(currentPage) < LastPage && old(messages[currentPage + 1]) != "" ==>
        messages == old(messages) && fetched == old(fetched)
      ensures old(currentPage) < LastPage && old(messages[currentPage + 1]) == "" ==>
        messages[..] == old(messages[..])[currentPage := Gemini.GenerateLoveStep(currentPage, api)] &&
        fetched == old(fetched) + [currentPage]
      ensures old(currentPage) < LastPage && old(messages[currentPage + 1]) == "" ==> fresh(messages)
      ensures old(currentPage) == LastPage ==>
        currentPage == old(currentPage) && messages == old(messages) && fetched == old(fetched)
      ensures CacheKept()
    {
      if currentPage < LastPage {
        var next := currentPage + 1;
        currentPage := next;
        LoadStep(next, api);
      }
    }

    /** prevPage: above chapter 0, move back one page; it never loads. */
    method PrevPage()
      requires Valid()
      modifies this`currentPage
      ensures Valid()
      ensures old(currentPage) > 0 ==> currentPage == old(currentPage) - 1
      ensures old(currentPage) == 0 ==> currentPage == 0
      ensures revealed == old(revealed) && loading == old(loading)
      ensures messages == old(messages) && messages[..] == old(messages[..])
    {
      if currentPage > 0 {
        currentPage := currentPage - 1;
      }
    }

    /** The chapter card as rendered: its number, its heading and, unless a load is
        in flight, its message. Once revealed it always quotes a non-empty text. */
    function View(): (s: Screen)
      reads this, messages
      requires Valid()
      ensures !revealed <==> s == Intro
      ensures revealed ==> s.Chapter? && s.number == currentPage + 1 && s.title == Titles[currentPage]
      ensures revealed ==> s.body == Quote(messages[currentPage]) && s.body.text != ""
    {
      if !revealed then Intro
      else Chapter(currentPage + 1, Titles[currentPage], if loading then Spinner else Quote(messages[currentPage]))
    }

    /** The model is called at most once per chapter in a session: at most six calls. */
    lemma CallsBounded()
      requires Consistent()
      ensures |fetched| <= PageCount
    {
      AtMostOneCallPerPage(fetched);
    }
  }

  /** A session in which every model call throws: reveal, then five forward moves,
      ends on the last chapter quoting the error fallback. */
  method EveryCallFails(api: string -> Gemini.Outcome) returns (page: int, screen: Screen)
    requires forall request :: api(request) == Gemini.Thrown
    ensures page == LastPage
    ensures screen == Chapter(PageCount, Titles[LastPage], Quote(Gemini.ErrorFallback))
  {
    var app := new Slideshow();
    app.HandleReveal(api);
    assert app.currentPage == 0 && app.messages[LastPage] == "";
    app.NextPage(api);
    assert app.currentPage == 1 && app.messages[LastPage] == "";
    app.NextPage(api);
    assert app.currentPage == 2 && app.messages[LastPage] == "";
    app.NextPage(api);
    assert app.currentPage == 3 && app.messages[LastPage] == "";
    app.NextPage(api);
    assert app.currentPage == 4 && app.messages[LastPage] == "";
    app.NextPage(api);
    page := app.currentPage;
    screen := app.View();
  }
}
