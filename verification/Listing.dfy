/**
 Paginated listings over several source folders (`list_files`, `search_text`).

 Every page asks each source for the first `limit + offset + 1` items of its own walk, sorts what comes
 back and cuts the page out. A source does not return the first items of the sorted order: it stops its
 walk early and search stops at 500 matches. So pages can skip or repeat items; this file proves exactly
 when following the continuation tokens yields the sorted listing.
 */
module Listing {
  import opened Results
  import opened Text

  /** An entry or a match; the numbers stand for positions in the locale's order of ids and of paths. */
  datatype Item = Item(source: int, file: int, line: int)

  predicate LessEq(a: Item, b: Item)
  {
    || a.source < b.source
    || (a.source == b.source && a.file < b.file)
    || (a.source == b.source && a.file == b.file && a.line <= b.line)
  }

  predicate Sorted(xs: seq<Item>) { forall i, j :: 0 <= i < j < |xs| ==> LessEq(xs[i], xs[j]) }

  function Insert(x: Item, xs: seq<Item>): seq<Item>
  {
    if xs == [] || LessEq(x, xs[0]) then [x] + xs else [xs[0]] + Insert(x, xs[1..])
  }

  /** `Array.prototype.sort`. */
  function Sort(xs: seq<Item>): seq<Item>
  {
    if xs == [] then [] else Insert(xs[0], Sort(xs[1..]))
  }

  // ----- Sources -----

  /** A source: the items in the order its walk meets them, and the most it ever returns. */
  datatype Source = Source(walk: seq<Item>, cap: Option<nat>, available: bool)

  function Min(a: nat, b: nat): nat { if a < b then a else b }

  /** What a source answers when asked for `n` items; an unavailable or failing source answers nothing. */
  function Returned(s: Source, n: nat): seq<Item>
  {
    if !s.available then []
    else s.walk[..Min(|s.walk|, if s.cap.Some? then Min(n, s.cap.value) else n)]
  }

  function Collected(sources: seq<Source>, n: nat): seq<Item>
  {
    if sources == [] then [] else Returned(sources[0], n) + Collected(sources[1..], n)
  }

  /** All the items of the available sources. */
  function Everything(sources: seq<Source>): seq<Item>
  {
    if sources == [] then []
    else (if sources[0].available then sources[0].walk else []) + Everything(sources[1..])
  }

  function Full(sources: seq<Source>): seq<Item> { Sort(Everything(sources)) }

  // ----- Pages -----

  const PREFIX: string := "offset:"

  function Token(offset: nat): string { PREFIX + Numeral(offset) }

  /** `Number.parseInt(…, 10) || 0`, not below zero. */
  function ParseOffset(token: Option<string>): nat { OffsetBehind(token, LeadingNumber) }

  function LeadingNumber(text: string): nat
  {
    var s := TrimStart(text);
    NumeralValue(DigitPrefix(if s != [] && s[0] == '+' then s[1..] else s))
  }

  function OffsetBehind(token: Option<string>, number: string -> nat): nat
  {
    if token.None? || !(PREFIX <= token.value) then 0 else number(token.value[|PREFIX|..])
  }

  datatype Tool = ListFiles | SearchText

  function GlobalLimit(tool: Tool, requested: Option<int>): (limit: nat)
    ensures 1 <= limit <= 500
  {
    var r := if requested.Some? then (if requested.value < 1 then 1 else requested.value)
             else if tool.ListFiles? then 200 else 50;
    if r < 500 then r else 500
  }

  /** Without a request the default of the tool; otherwise the request, or the end of the range from 1 to 500 that is nearer. */
  lemma LimitIsNearest(tool: Tool, requested: Option<int>)
    ensures requested.None? ==> GlobalLimit(tool, requested) == if tool == ListFiles then 200 else 50
    ensures requested.Some? && 1 <= requested.value <= 500 ==> GlobalLimit(tool, requested) == requested.value
    ensures requested.Some? && requested.value < 1 ==> GlobalLimit(tool, requested) == 1
    ensures requested.Some? && requested.value > 500 ==> GlobalLimit(tool, requested) == 500
  {
  }

  datatype Page = Page(items: seq<Item>, token: Option<string>)

  /** The page at an offset, cut from what the sources returned. */
  function CutPage(merged: seq<Item>, offset: nat, limit: nat, token: nat -> string): Page
  {
    Page(merged[Min(offset, |merged|)..Min(offset + limit, |merged|)],
         if |merged| > offset + limit then Some(token(offset + limit)) else None)
  }

  /** The sorted answer of the sources when each is asked for `n` items. */
  function Ask(sources: seq<Source>): nat -> seq<Item>
  {
    (n: nat) => Sort(Collected(sources, n))
  }

  function PageAt(ask: nat -> seq<Item>, limit: nat, offset: nat): Page
  {
    CutPage(ask(limit + offset + 1), offset, limit, Token)
  }

  method CallWorkspaceIndexedTool(tool: Tool, sources: seq<Source>, requested: Option<int>, token: Option<string>)
    returns (page: Page)
    ensures page == PageAt(Ask(sources), GlobalLimit(tool, requested), ParseOffset(token))
  {
    var globalLimit := GlobalLimit(tool, requested);
    var offset := ParseOffset(token);
    var files := AskSources(sources, globalLimit + offset + 1);
    page := CutPage(files, offset, globalLimit, Token);
  }

  /** The loop over the sources and the sort in place. */
  method AskSources(sources: seq<Source>, perSourceLimit: nat) returns (files: seq<Item>)
    ensures files == Sort(Collected(sources, perSourceLimit))
  {
    files := [];
    for i := 0 to |sources|
      invariant files + Collected(sources[i..], perSourceLimit) == Collected(sources, perSourceLimit)
    {
      assert sources[i..][1..] == sources[i + 1..];
      files := files + Returned(sources[i], perSourceLimit);
    }
    assert files + [] == files;
    files := Sort(files);
  }

  lemma LeadingDigits(digits: string)
    requires digits != [] && AllDigits(digits)
    ensures LeadingNumber(digits) == NumeralValue(digits)
  {
    assert IsDigit(digits[0]);
    assert TrimStart(digits) == digits;
    DigitPrefixOfDigits(digits);
  }

  lemma PrefixIsCutOff(digits: string, number: string -> nat)
    ensures OffsetBehind(Some(PREFIX + digits), number) == number(digits)
  {
    var token := PREFIX + digits;
    assert token[..|PREFIX|] == PREFIX;
    assert token[|PREFIX|..] == digits;
  }

  lemma TokenRoundTrip(offset: nat)
    ensures ParseOffset(Some(Token(offset))) == offset
  {
    PrefixIsCutOff(Numeral(offset), LeadingNumber);
    LeadingDigits(Numeral(offset));
    NumeralRoundTrip(offset);
  }

  /** A token that is missing or not one of ours begins at the front; of any other the digits count. */
  lemma TokensAreReadLeniently(token: Option<string>, digits: string, rest: string)
    requires AllDigits(digits) && digits != [] && (rest != [] ==> !IsDigit(rest[0]))
    ensures token.None? || !(PREFIX <= token.value) ==> ParseOffset(token) == 0
    ensures ParseOffset(Some(PREFIX + (digits + rest))) == NumeralValue(digits)
    ensures ParseOffset(Some(PREFIX + (['+'] + (digits + rest)))) == NumeralValue(digits)
    ensures rest != [] && rest[0] != '+' && !IsSpace(rest[0]) ==> ParseOffset(Some(PREFIX + rest)) == 0
  {
    PrefixIsCutOff(digits + rest, LeadingNumber);
    LeadingDigitsOnly(digits, rest);
    PrefixIsCutOff(['+'] + (digits + rest), LeadingNumber);
    assert (['+'] + (digits + rest))[1..] == digits + rest;
    DigitsBefore(digits, rest);
    PrefixIsCutOff(rest, LeadingNumber);
    if rest != [] && rest[0] != '+' && !IsSpace(rest[0]) {
      assert TrimStart(rest) == rest;
      assert DigitPrefix(rest) == [];
    }
  }

  lemma {:induction false} DigitsBefore(digits: string, rest: string)
    requires AllDigits(digits) && (rest != [] ==> !IsDigit(rest[0]))
    ensures DigitPrefix(digits + rest) == digits
  {
    if digits != [] {
      assert (digits + rest)[1..] == digits[1..] + rest;
      DigitsBefore(digits[1..], rest);
    } else {
      assert digits + rest == rest;
    }
  }

  lemma LeadingDigitsOnly(digits: string, rest: string)
    requires AllDigits(digits) && digits != [] && (rest != [] ==> !IsDigit(rest[0]))
    ensures LeadingNumber(digits + rest) == NumeralValue(digits)
  {
    assert IsDigit(digits[0]) && (digits + rest)[0] == digits[0];
    assert TrimStart(digits + rest) == digits + rest;
    DigitsBefore(digits, rest);
  }

  /** The token of a page leads to the offset after it, where the remaining items begin. */
  lemma TokenLeadsOn(ask: nat -> seq<Item>, limit: nat, offset: nat)
    ensures var page := PageAt(ask, limit, offset);
            && (page.token.Some? <==> |ask(limit + offset + 1)| > offset + limit)
            && (page.token.Some? ==> ParseOffset(page.token) == offset + limit)
  {
    TokenOfCut(ask(limit + offset + 1), offset, limit, Token);
    TokenRoundTrip(offset + limit);
  }

  lemma TokenOfCut(merged: seq<Item>, offset: nat, limit: nat, token: nat -> string)
    ensures CutPage(merged, offset, limit, token).token ==
            if |merged| > offset + limit then Some(token(offset + limit)) else None
  {
  }

  /** The items of the page at an offset and of all the pages after it, while tokens are given; no answer exceeds `bound`. */
  function Follow(ask: nat -> seq<Item>, bound: nat, limit: nat, offset: nat): seq<Item>
    requires limit >= 1 && forall n: nat :: |ask(n)| <= bound
    decreases bound + 1 - Min(offset, bound + 1)
  {
    var merged := ask(limit + offset + 1);
    if |merged| > offset + limit
    then merged[offset..offset + limit] + Follow(ask, bound, limit, offset + limit)
    else merged[Min(offset, |merged|)..]
  }

  /** `Follow` collects pages: the page at the offset, then what its token leads to. */
  lemma FollowIsPaging(ask: nat -> seq<Item>, bound: nat, limit: nat, offset: nat)
    requires limit >= 1 && forall n: nat :: |ask(n)| <= bound
    ensures var page := PageAt(ask, limit, offset);
            Follow(ask, bound, limit, offset) ==
              page.items + if page.token.None? then [] else Follow(ask, bound, limit, ParseOffset(page.token))
  {
    TokenLeadsOn(ask, limit, offset);
    ItemsOfCut(ask(limit + offset + 1), offset, limit, Token);
    FollowUnfolds(ask, bound, limit, offset);
  }

  lemma ItemsOfCut(merged: seq<Item>, offset: nat, limit: nat, token: nat -> string)
    ensures var items := CutPage(merged, offset, limit, token).items;
            && items + [] == items
            && items == if |merged| > offset + limit then merged[offset..offset + limit] else merged[Min(offset, |merged|)..]
  {
  }

  // ----- Sorting -----

  lemma {:induction false} InsertIsSorted(x: Item, xs: seq<Item>)
    requires Sorted(xs)
    ensures Sorted(Insert(x, xs)) && multiset(Insert(x, xs)) == multiset(xs) + multiset{x}
  {
    if xs == [] || LessEq(x, xs[0]) {
    } else {
      InsertIsSorted(x, xs[1..]);
      var tail := Insert(x, xs[1..]);
      assert xs == [xs[0]] + xs[1..];
      forall j | 0 <= j < |tail| ensures LessEq(xs[0], tail[j]) {
        assert tail[j] in multiset(tail);
        if tail[j] != x { assert tail[j] in xs[1..]; }
      }
    }
  }

  lemma {:induction false} SortIsPermutation(xs: seq<Item>)
    ensures Sorted(Sort(xs)) && multiset(Sort(xs)) == multiset(xs) && |Sort(xs)| == |xs|
  {
    if xs != [] {
      SortIsPermutation(xs[1..]);
      InsertIsSorted(xs[0], Sort(xs[1..]));
      assert xs == [xs[0]] + xs[1..];
    }
    assert |multiset(Sort(xs))| == |Sort(xs)| && |multiset(xs)| == |xs|;
  }

  lemma FirstIsLeast(xs: seq<Item>, x: Item)
    requires Sorted(xs) && x in multiset(xs)
    ensures xs != [] && LessEq(xs[0], x)
  {
    assert x in xs;
  }

  lemma HeadsAgree(a: seq<Item>, b: seq<Item>)
    requires Sorted(a) && Sorted(b) && multiset(a) == multiset(b) && a != [] && b != []
    ensures a[0] == b[0]
  {
    assert a[0] in multiset(b) && b[0] in multiset(a);
    FirstIsLeast(a, b[0]);
    FirstIsLeast(b, a[0]);
  }

  lemma TailsAgree(a: seq<Item>, b: seq<Item>)
    requires multiset(a) == multiset(b) && a != [] && b != [] && a[0] == b[0]
    ensures multiset(a[1..]) == multiset(b[1..])
  {
    assert a == [a[0]] + a[1..] && b == [b[0]] + b[1..];
    assert multiset(a[1..]) == multiset(a) - multiset{a[0]};
    assert multiset(b[1..]) == multiset(b) - multiset{b[0]};
  }

  lemma {:induction false} SortedIsUnique(a: seq<Item>, b: seq<Item>)
    requires Sorted(a) && Sorted(b) && multiset(a) == multiset(b)
    ensures a == b
  {
    assert |a| == |multiset(a)| == |b|;
    if a != [] {
      HeadsAgree(a, b);
      TailsAgree(a, b);
      SortedIsUnique(a[1..], b[1..]);
      assert a == [a[0]] + a[1..] && b == [b[0]] + b[1..];
    }
  }

  // ----- Parts of a sorted list -----

  function Keep(xs: seq<Item>, m: multiset<Item>): seq<Item>
  {
    if xs == [] then []
    else Keep(xs[..|xs| - 1], m) + if xs[|xs| - 1] in m then [xs[|xs| - 1]] else []
  }

  predicate Once(xs: seq<Item>) { forall x :: x in multiset(xs) ==> multiset(xs)[x] == 1 }

  lemma CountOfLast(xs: seq<Item>, x: Item)
    requires xs != []
    ensures multiset(xs)[x] == multiset(xs[..|xs| - 1])[x] + if xs[|xs| - 1] == x then 1 else 0
  {
    assert xs == xs[..|xs| - 1] + [xs[|xs| - 1]];
  }

  lemma {:induction false} KeepCounts(xs: seq<Item>, m: multiset<Item>, x: Item)
    ensures multiset(Keep(xs, m))[x] == if x in m then multiset(xs)[x] else 0
  {
    if xs != [] {
      var init, last := xs[..|xs| - 1], xs[|xs| - 1];
      KeepCounts(init, m, x);
      CountOfLast(xs, x);
      var kept := Keep(init, m);
      if last in m { assert multiset(kept + [last])[x] == multiset(kept)[x] + if last == x then 1 else 0; }
    }
  }

  lemma {:induction false} KeepIsSorted(xs: seq<Item>, m: multiset<Item>)
    requires Sorted(xs)
    ensures Sorted(Keep(xs, m)) && |Keep(xs, m)| <= |xs|
  {
    if xs != [] {
      var init, last := xs[..|xs| - 1], xs[|xs| - 1];
      KeepIsSorted(init, m);
      var kept := Keep(init, m);
      forall i | 0 <= i < |kept| ensures LessEq(kept[i], last) {
        KeepCounts(init, m, kept[i]);
        assert kept[i] in multiset(kept);
        assert kept[i] in init;
      }
    }
  }

  lemma KeptPart(part: seq<Item>, whole: seq<Item>)
    requires Once(whole) && multiset(part) <= multiset(whole)
    ensures multiset(Keep(whole, multiset(part))) == multiset(part)
  {
    var m := multiset(part);
    forall x ensures multiset(Keep(whole, m))[x] == m[x] {
      KeepCounts(whole, m, x);
      if x in m { assert x in multiset(whole); }
    }
  }

  /** Sorting some of the items of a list without repetitions is keeping them in the sorted list. */
  lemma SortOfPart(part: seq<Item>, whole: seq<Item>)
    requires Once(whole) && multiset(part) <= multiset(whole)
    ensures Sort(part) == Keep(Sort(whole), multiset(part))
  {
    SortIsPermutation(part);
    SortIsPermutation(whole);
    KeepIsSorted(Sort(whole), multiset(part));
    KeptPart(part, Sort(whole));
    SortedIsUnique(Sort(part), Keep(Sort(whole), multiset(part)));
  }

  lemma {:induction false} KeepConcat(a: seq<Item>, b: seq<Item>, m: multiset<Item>)
    ensures Keep(a + b, m) == Keep(a, m) + Keep(b, m)
  {
    if b == [] {
      assert a + b == a && Keep(a, m) + [] == Keep(a, m);
    } else {
      var init, last := b[..|b| - 1], b[|b| - 1];
      assert (a + b)[..|a + b| - 1] == a + init;
      KeepConcat(a, init, m);
    }
  }

  lemma {:induction false} KeepAll(xs: seq<Item>, m: multiset<Item>)
    requires forall i :: 0 <= i < |xs| ==> xs[i] in m
    ensures Keep(xs, m) == xs
  {
    if xs != [] { KeepAll(xs[..|xs| - 1], m); }
  }

  /** If the first `k` items are all kept, the result begins with them. */
  lemma KeepPrefix(xs: seq<Item>, k: nat, m: multiset<Item>)
    requires k <= |xs| && forall i :: 0 <= i < k ==> xs[i] in m
    ensures xs[..k] <= Keep(xs, m)
  {
    assert xs == xs[..k] + xs[k..];
    KeepConcat(xs[..k], xs[k..], m);
    KeepAll(xs[..k], m);
  }

  // ----- What the sources return -----

  lemma {:induction false} CollectedIsPart(sources: seq<Source>, n: nat)
    ensures multiset(Collected(sources, n)) <= multiset(Everything(sources))
    ensures |Collected(sources, n)| <= |Everything(sources)|
  {
    if sources != [] {
      CollectedIsPart(sources[1..], n);
      var s := sources[0];
      var k := |Returned(s, n)|;
      if s.available { assert s.walk == s.walk[..k] + s.walk[k..]; }
    }
  }

  lemma {:induction false} CollectedGrows(sources: seq<Source>, n: nat, m: nat)
    requires n <= m
    ensures multiset(Collected(sources, n)) <= multiset(Collected(sources, m))
  {
    if sources != [] {
      CollectedGrows(sources[1..], n, m);
      var a, b := Returned(sources[0], n), Returned(sources[0], m);
      assert b == a + b[|a|..];
    }
  }

  /** The sources have no item that lies beyond what they can ever return. */
  predicate WithinCaps(sources: seq<Source>)
  {
    forall i :: 0 <= i < |sources| && sources[i].available && sources[i].cap.Some? ==>
      |sources[i].walk| <= sources[i].cap.value
  }

  /** Without truncation by a cap, `n` items are returned if there are as many. */
  lemma {:induction false} CollectedIsEnough(sources: seq<Source>, n: nat)
    requires WithinCaps(sources) && |Everything(sources)| >= n
    ensures |Collected(sources, n)| >= n
  {
    CollectedIsEnoughOrAll(sources, n);
  }

  lemma {:induction false} CollectedIsEnoughOrAll(sources: seq<Source>, n: nat)
    requires WithinCaps(sources)
    ensures |Collected(sources, n)| >= n || Collected(sources, n) == Everything(sources)
  {
    if sources != [] {
      assert WithinCaps(sources[1..]) by {
        assert forall i :: 0 <= i < |sources| - 1 ==> sources[1..][i] == sources[i + 1];
      }
      CollectedIsEnoughOrAll(sources[1..], n);
    }
  }

  // ----- When following the tokens is exact -----

  /** Answers that are parts of one listing and grow with what is asked for. */
  predicate AsksFor(ask: nat -> seq<Item>, n: nat, full: seq<Item>) { ask(n) == Keep(full, multiset(ask(n))) }

  ghost predicate Asks(ask: nat -> seq<Item>, full: seq<Item>)
  {
    && (forall n: nat :: |ask(n)| <= |full|)
    && (forall n: nat {:trigger AsksFor(ask, n, full)} :: AsksFor(ask, n, full))
    && forall n: nat, m: nat :: Grows(ask, n, m)
  }

  predicate Grows(ask: nat -> seq<Item>, n: nat, m: nat) { n <= m ==> multiset(ask(n)) <= multiset(ask(m)) }

  /** The first `end` items of the listing are in the answer for `n`. */
  predicate Reached(ask: nat -> seq<Item>, full: seq<Item>, start: nat, end: nat, n: nat)
  {
    forall r :: start <= r < Min(end, |full|) ==> full[r] in multiset(ask(n))
  }

  /** From an offset on, the items of each page are in the answer given for that page. */
  predicate PagesReached(ask: nat -> seq<Item>, full: seq<Item>, limit: nat, offset: nat)
    requires limit >= 1
    decreases |full| - Min(offset, |full|)
  {
    offset < |full| ==>
      && Reached(ask, full, offset, offset + limit, limit + offset + 1)
      && PagesReached(ask, full, limit, offset + limit)
  }

  /** An answer that holds the first items of the listing begins with them. */
  lemma AnswerBegins(ask: nat -> seq<Item>, full: seq<Item>, end: nat, n: nat)
    requires AsksFor(ask, n, full) && end <= |full| && Reached(ask, full, 0, end, n)
    ensures full[..end] <= ask(n)
  {
    KeepPrefix(full, end, multiset(ask(n)));
  }

  /** One page, when its answer holds the listing up to its end. */
  lemma PageIsRight(merged: seq<Item>, full: seq<Item>, limit: nat, offset: nat)
    requires offset <= |full| && |merged| <= |full|
    requires full[..Min(offset + limit, |full|)] <= merged
    requires |full| > offset + limit ==> |merged| > offset + limit
    ensures |merged| > offset + limit <==> |full| > offset + limit
    ensures |full| > offset + limit ==> merged[offset..offset + limit] == full[offset..offset + limit]
    ensures |full| <= offset + limit ==> merged[Min(offset, |merged|)..] == full[offset..]
  {
    if |full| > offset + limit {
      assert full[..offset + limit][offset..] == full[offset..offset + limit];
      assert merged[..offset + limit][offset..] == merged[offset..offset + limit];
    } else {
      assert full[..|full|] == full == merged;
    }
  }

  lemma ReachedJoins(ask: nat -> seq<Item>, full: seq<Item>, middle: nat, m: nat, end: nat, n: nat)
    requires Reached(ask, full, 0, middle, m) && multiset(ask(m)) <= multiset(ask(n))
    requires Reached(ask, full, middle, end, n)
    ensures Reached(ask, full, 0, end, n)
  {
    forall r | 0 <= r < Min(end, |full|) ensures full[r] in multiset(ask(n)) {
      if r < middle { assert full[r] in multiset(ask(m)); }
    }
  }

  /** As many items are returned as are asked for, if there are as many. */
  ghost predicate AnswersEnough(ask: nat -> seq<Item>, full: seq<Item>)
  {
    forall n: nat :: n <= |full| ==> |ask(n)| >= n
  }

  /** If the pages up to an offset were answered and the page there is, then it is the right page. */
  ghost predicate PageStep(ask: nat -> seq<Item>, full: seq<Item>, limit: nat, offset: nat)
    requires limit >= 1 && forall n: nat :: |ask(n)| <= |full|
  {
    && offset <= |full| && Reached(ask, full, 0, offset, offset + 1)
    && (Reached(ask, full, offset, offset + limit, limit + offset + 1) || offset == |full|)
    ==>
      && Reached(ask, full, 0, offset + limit, offset + limit + 1)
      && Follow(ask, |full|, limit, offset) ==
         if |full| > offset + limit then full[offset..offset + limit] + Follow(ask, |full|, limit, offset + limit)
         else full[offset..]
  }

  lemma ReachedIsExact(ask: nat -> seq<Item>, full: seq<Item>, limit: nat)
    requires limit >= 1 && Asks(ask, full) && AnswersEnough(ask, full) && PagesReached(ask, full, limit, 0)
    ensures Follow(ask, |full|, limit, 0) == full
  {
    forall o: nat ensures PageStep(ask, full, limit, o) {
      assert AsksFor(ask, limit + o + 1, full) && Grows(ask, o + 1, limit + o + 1);
      if o <= |full| && Reached(ask, full, 0, o, o + 1)
        && (Reached(ask, full, o, o + limit, limit + o + 1) || o == |full|) { ExactPage(ask, full, limit, o); }
    }
    ReachedFromOffset(ask, full, limit, 0);
    assert full[0..] == full;
  }

  lemma {:induction false} ReachedFromOffset(ask: nat -> seq<Item>, full: seq<Item>, limit: nat, offset: nat)
    requires limit >= 1 && offset <= |full| && forall n: nat :: |ask(n)| <= |full|
    requires forall o: nat {:trigger PageStep(ask, full, limit, o)} :: PageStep(ask, full, limit, o)
    requires PagesReached(ask, full, limit, offset) && Reached(ask, full, 0, offset, offset + 1)
    ensures Follow(ask, |full|, limit, offset) == full[offset..]
    decreases |full| - offset
  {
    assert PageStep(ask, full, limit, offset);
    if |full| > offset + limit {
      ReachedFromOffset(ask, full, limit, offset + limit);
      assert full[offset..] == full[offset..offset + limit] + full[offset + limit..];
    }
  }

  lemma ExactPage(ask: nat -> seq<Item>, full: seq<Item>, limit: nat, offset: nat)
    requires limit >= 1 && offset <= |full| && forall n: nat :: |ask(n)| <= |full|
    requires AsksFor(ask, limit + offset + 1, full) && Grows(ask, offset + 1, limit + offset + 1)
    requires |full| > offset + limit ==> |ask(limit + offset + 1)| > offset + limit
    requires Reached(ask, full, offset, offset + limit, limit + offset + 1) || offset == |full|
    requires Reached(ask, full, 0, offset, offset + 1)
    ensures Reached(ask, full, 0, offset + limit, offset + limit + 1)
    ensures Follow(ask, |full|, limit, offset) ==
            if |full| > offset + limit then full[offset..offset + limit] + Follow(ask, |full|, limit, offset + limit)
            else full[offset..]
  {
    AnswerHoldsPage(ask, full, limit, offset);
    PageIsRight(ask(limit + offset + 1), full, limit, offset);
    FollowUnfolds(ask, |full|, limit, offset);
  }

  lemma FollowUnfolds(ask: nat -> seq<Item>, bound: nat, limit: nat, offset: nat)
    requires limit >= 1 && forall n: nat :: |ask(n)| <= bound
    ensures var merged := ask(limit + offset + 1);
            Follow(ask, bound, limit, offset) ==
              if |merged| > offset + limit
              then merged[offset..offset + limit] + Follow(ask, bound, limit, offset + limit)
              else merged[Min(offset, |merged|)..]
  {
  }

  lemma AnswerHoldsPage(ask: nat -> seq<Item>, full: seq<Item>, limit: nat, offset: nat)
    requires limit >= 1 && offset <= |full|
    requires AsksFor(ask, limit + offset + 1, full) && Grows(ask, offset + 1, limit + offset + 1)
    requires Reached(ask, full, offset, offset + limit, limit + offset + 1) || offset == |full|
    requires Reached(ask, full, 0, offset, offset + 1)
    ensures Reached(ask, full, 0, offset + limit, offset + limit + 1)
    ensures full[..Min(offset + limit, |full|)] <= ask(limit + offset + 1)
  {
    var n := limit + offset + 1;
    ReachedJoins(ask, full, offset, offset + 1, offset + limit, n);
    AnswerBegins(ask, full, Min(offset + limit, |full|), n);
  }

  /** A page that is listed at its place has been answered. */
  lemma ListedIsAnswered(merged: seq<Item>, items: seq<Item>, full: seq<Item>, limit: nat, offset: nat)
    requires offset <= |full| && items <= full[offset..] && |items| >= Min(limit, |full| - offset)
    requires forall i :: 0 <= i < |items| ==> items[i] in multiset(merged)
    ensures forall r :: offset <= r < Min(offset + limit, |full|) ==> full[r] in multiset(merged)
  {
    forall r | offset <= r < Min(offset + limit, |full|) ensures full[r] in multiset(merged) {
      assert full[r] == full[offset..][r - offset] == items[r - offset];
    }
  }

  lemma PartsOf(items: seq<Item>, tail: seq<Item>, full: seq<Item>, offset: nat)
    requires offset <= |full| && items + tail == full[offset..]
    ensures items <= full[offset..] && offset + |items| <= |full| && tail == full[offset + |items|..]
  {
    assert tail == (items + tail)[|items|..];
  }

  lemma SliceIsPart(xs: seq<Item>, lo: nat, hi: nat)
    requires lo <= hi <= |xs|
    ensures forall i :: 0 <= i < hi - lo ==> xs[lo..hi][i] in multiset(xs)
  {
    forall i | 0 <= i < hi - lo ensures xs[lo..hi][i] in multiset(xs) { assert xs[lo..hi][i] == xs[lo + i]; }
  }

  /** One page of an exact listing: its items were answered, and the rest is exact again. */
  lemma PageWasAnswered(merged: seq<Item>, tail: seq<Item>, full: seq<Item>, limit: nat, offset: nat)
    requires offset < |full|
    requires |merged| > offset + limit ==> merged[offset..offset + limit] + tail == full[offset..]
    requires |merged| <= offset + limit ==> merged[Min(offset, |merged|)..] == full[offset..]
    ensures forall r :: offset <= r < Min(offset + limit, |full|) ==> full[r] in multiset(merged)
    ensures |merged| > offset + limit ==> offset + limit <= |full| && tail == full[offset + limit..]
    ensures |merged| <= offset + limit ==> |full| <= offset + limit
  {
    if |merged| > offset + limit {
      var items := merged[offset..offset + limit];
      PartsOf(items, tail, full, offset);
      SliceIsPart(merged, offset, offset + limit);
      ListedIsAnswered(merged, items, full, limit, offset);
    } else {
      SliceIsPart(merged, Min(offset, |merged|), |merged|);
      ListedIsAnswered(merged, merged[Min(offset, |merged|)..], full, limit, offset);
    }
  }

  /** Conversely, what is listed at its place has been answered. */
  lemma {:induction false} ExactIsReached(ask: nat -> seq<Item>, full: seq<Item>, limit: nat, offset: nat)
    requires limit >= 1 && offset <= |full| && forall n: nat :: |ask(n)| <= |full|
    requires Follow(ask, |full|, limit, offset) == full[offset..]
    ensures PagesReached(ask, full, limit, offset)
    decreases |full| - offset
  {
    if offset < |full| {
      var merged := ask(limit + offset + 1);
      var tail := if |merged| > offset + limit then Follow(ask, |full|, limit, offset + limit) else [];
      PageWasAnswered(merged, tail, full, limit, offset);
      if |merged| > offset + limit { ExactIsReached(ask, full, limit, offset + limit); }
    }
  }

  // ----- The listing of the sources -----

  function Answers(sources: seq<Source>): (ask: nat -> seq<Item>)
    ensures forall n: nat :: |ask(n)| <= |Full(sources)|
  {
    forall n: nat ensures |Ask(sources)(n)| <= |Full(sources)| {
      CollectedIsPart(sources, n);
      SortIsPermutation(Collected(sources, n));
      SortIsPermutation(Everything(sources));
    }
    Ask(sources)
  }

  /** The pages all together, from the first one. */
  function Listed(sources: seq<Source>, limit: nat): seq<Item>
    requires limit >= 1
  {
    Follow(Answers(sources), |Full(sources)|, limit, 0)
  }

  lemma SourcesAsk(sources: seq<Source>)
    requires Once(Everything(sources))
    ensures Asks(Ask(sources), Full(sources))
    ensures WithinCaps(sources) ==> AnswersEnough(Ask(sources), Full(sources))
  {
    var ask, full := Ask(sources), Full(sources);
    SortIsPermutation(Everything(sources));
    forall n: nat ensures AsksFor(ask, n, full) && |ask(n)| <= |full| && multiset(ask(n)) == multiset(Collected(sources, n))
      ensures WithinCaps(sources) && n <= |full| ==> |ask(n)| >= n
    {
      SortIsPermutation(Collected(sources, n));
      CollectedIsPart(sources, n);
      SortOfPart(Collected(sources, n), Everything(sources));
      if WithinCaps(sources) && n <= |full| { CollectedIsEnough(sources, n); }
    }
    forall n: nat, m: nat ensures Grows(ask, n, m) { if n <= m { CollectedGrows(sources, n, m); } }
  }

  lemma ConcatOfSources(a: seq<Source>, b: seq<Source>, n: nat)
    ensures Collected(a + b, n) == Collected(a, n) + Collected(b, n)
    ensures Everything(a + b) == Everything(a) + Everything(b)
  {
    CollectedOfConcat(a, b, n);
    EverythingOfConcat(a, b);
  }

  lemma {:induction false} CollectedOfConcat(a: seq<Source>, b: seq<Source>, n: nat)
    ensures Collected(a + b, n) == Collected(a, n) + Collected(b, n)
  {
    if a == [] {
      assert a + b == b;
    } else {
      assert (a + b)[1..] == a[1..] + b;
      CollectedOfConcat(a[1..], b, n);
    }
  }

  lemma {:induction false} EverythingOfConcat(a: seq<Source>, b: seq<Source>)
    ensures Everything(a + b) == Everything(a) + Everything(b)
  {
    if a == [] {
      assert a + b == b;
    } else {
      assert (a + b)[1..] == a[1..] + b;
      EverythingOfConcat(a[1..], b);
    }
  }

  function Walk(s: Source): seq<Item> { if s.available then s.walk else [] }

  lemma SourcesSplit(sources: seq<Source>, i: nat, n: nat)
    requires i < |sources|
    ensures Collected(sources, n) == Collected(sources[..i], n) + (Returned(sources[i], n) + Collected(sources[i + 1..], n))
    ensures Everything(sources) == Everything(sources[..i]) + (Walk(sources[i]) + Everything(sources[i + 1..]))
  {
    assert sources == sources[..i] + sources[i..];
    ConcatOfSources(sources[..i], sources[i..], n);
    assert sources[i..][1..] == sources[i + 1..];
  }

  /** An item is in the answers for which its source walks beyond it, and in no others. */
  lemma AnsweredExactly(sources: seq<Source>, i: nat, k: nat, n: nat)
    requires i < |sources| && sources[i].available && k < |sources[i].walk|
    requires Once(Everything(sources))
    ensures sources[i].walk[k] in multiset(Collected(sources, n)) <==> k < |Returned(sources[i], n)|
    ensures sources[i].walk[k] in multiset(Everything(sources))
  {
    var walk, front := sources[i].walk, Returned(sources[i], n);
    SourcesSplit(sources, i, n);
    if k < |front| {
      assert front[k] == walk[k];
      InMiddle(Collected(sources[..i], n), front, Collected(sources[i + 1..], n), walk[k]);
      InMiddle(Everything(sources[..i]), walk, Everything(sources[i + 1..]), walk[k]);
    } else {
      CollectedIsPart(sources[..i], n);
      CollectedIsPart(sources[i + 1..], n);
      OnlyInTail(walk, |front|, k, Everything(sources[..i]), Everything(sources[i + 1..]));
    }
  }

  lemma OnlyInTail(walk: seq<Item>, j: nat, k: nat, left: seq<Item>, right: seq<Item>)
    requires j <= k < |walk| && Once(left + (walk + right))
    ensures walk[k] !in multiset(left) && walk[k] !in multiset(walk[..j]) && walk[k] !in multiset(right)
    ensures walk[k] in multiset(left + (walk + right))
  {
    var x := walk[k];
    assert walk == walk[..j] + walk[j..];
    assert x in multiset(walk[j..]) by { assert walk[j..][k - j] == x; }
    assert multiset(left + (walk + right))[x] == 1;
  }

  // ----- Where the sources meet their items -----

  /** How many items each source is asked for when the page with the item in place `r` is read. */
  function AskedFor(limit: nat, r: nat): nat
    requires limit >= 1
  {
    limit * (r / limit + 1) + 1
  }

  /** A source meets each of its items early enough for the page on which the item belongs. */
  predicate MeetsInTime(s: Source, full: seq<Item>, limit: nat)
    requires limit >= 1
  {
    forall k, r :: 0 <= k < |s.walk| && 0 <= r < |full| && full[r] == s.walk[k] ==>
      k < AskedFor(limit, r) && (s.cap.Some? ==> k < s.cap.value)
  }

  predicate AllMeetInTime(sources: seq<Source>, full: seq<Item>, limit: nat)
    requires limit >= 1
  {
    forall i :: 0 <= i < |sources| && sources[i].available ==> MeetsInTime(sources[i], full, limit)
  }

  /** Each item is in the answer for its own page. */
  predicate ItemsReached(ask: nat -> seq<Item>, full: seq<Item>, limit: nat, start: nat)
    requires limit >= 1
  {
    forall r :: start <= r < |full| ==> full[r] in multiset(ask(AskedFor(limit, r)))
  }

  lemma OneMoreTime(a: nat, limit: nat)
    ensures (a + 1) * limit == a * limit + limit
  {
  }

  lemma {:induction false} NextMultiple(a: nat, b: nat, limit: nat)
    requires a < b
    ensures a * limit + limit <= b * limit
  {
    OneMoreTime(b - 1, limit);
    if a < b - 1 { NextMultiple(a, b - 1, limit); }
  }

  lemma SameQuotient(limit: nat, q: nat, d: nat, r: int)
    requires q * limit <= r < q * limit + limit && d * limit <= r < d * limit + limit
    ensures q == d
  {
    if d < q { NextMultiple(d, q, limit); }
    if q < d { NextMultiple(q, d, limit); }
  }

  lemma PageNumber(limit: nat, q: nat, r: nat)
    requires limit >= 1 && q * limit <= r < q * limit + limit
    ensures r / limit == q
  {
    assert r == (r / limit) * limit + r % limit;
    SameQuotient(limit, q, r / limit, r);
  }

  lemma AskedForOnPage(limit: nat, q: nat, r: nat)
    requires limit >= 1 && q * limit <= r < q * limit + limit
    ensures AskedFor(limit, r) == limit + q * limit + 1
  {
    PageNumber(limit, q, r);
    assert limit * (q + 1) == limit + q * limit;
  }

  lemma PageOfItems(ask: nat -> seq<Item>, full: seq<Item>, limit: nat, q: nat, offset: nat)
    requires limit >= 1 && offset == q * limit
    ensures ItemsReached(ask, full, limit, offset) <==>
            && Reached(ask, full, offset, offset + limit, limit + offset + 1)
            && ItemsReached(ask, full, limit, offset + limit)
  {
    forall r | offset <= r < offset + limit ensures AskedFor(limit, r) == limit + offset + 1 {
      AskedForOnPage(limit, q, r);
    }
  }

  lemma {:induction false} PagesFromAreItems(ask: nat -> seq<Item>, full: seq<Item>, limit: nat, q: nat, offset: nat)
    requires limit >= 1 && offset == q * limit
    ensures PagesReached(ask, full, limit, offset) <==> ItemsReached(ask, full, limit, offset)
    decreases |full| - Min(offset, |full|)
  {
    if offset < |full| {
      PageOfItems(ask, full, limit, q, offset);
      PagesFromAreItems(ask, full, limit, q + 1, offset + limit);
    }
  }

  lemma PagesAreItems(ask: nat -> seq<Item>, full: seq<Item>, limit: nat)
    requires limit >= 1
    ensures PagesReached(ask, full, limit, 0) <==> ItemsReached(ask, full, limit, 0)
  {
    PagesFromAreItems(ask, full, limit, 0, 0);
  }

  lemma ReturnedLength(s: Source, k: nat, n: nat)
    requires s.available && k < |s.walk|
    ensures k < |Returned(s, n)| <==> k < n && (s.cap.Some? ==> k < s.cap.value)
  {
  }

  lemma FullHasEverything(sources: seq<Source>)
    ensures multiset(Full(sources)) == multiset(Everything(sources))
  {
    SortIsPermutation(Everything(sources));
  }

  lemma {:induction false} SourceOf(sources: seq<Source>, x: Item) returns (i: nat)
    requires x in multiset(Everything(sources))
    ensures i < |sources| && sources[i].available && x in multiset(sources[i].walk)
  {
    if sources[0].available && x in multiset(sources[0].walk) {
      i := 0;
    } else {
      i := SourceOf(sources[1..], x);
      i := i + 1;
    }
  }

  lemma ItemInTime(sources: seq<Source>, i: nat, k: nat, n: nat)
    requires i < |sources| && sources[i].available && k < |sources[i].walk| && Once(Everything(sources))
    ensures sources[i].walk[k] in multiset(Ask(sources)(n)) <==>
            k < n && (sources[i].cap.Some? ==> k < sources[i].cap.value)
  {
    AskIsPermutation(sources, n);
    AnsweredExactly(sources, i, k, n);
    ReturnedLength(sources[i], k, n);
  }

  lemma ReachedMeetInTime(sources: seq<Source>, full: seq<Item>, limit: nat)
    requires limit >= 1 && Once(Everything(sources)) && ItemsReached(Ask(sources), full, limit, 0)
    ensures AllMeetInTime(sources, full, limit)
  {
    forall i | 0 <= i < |sources| && sources[i].available ensures MeetsInTime(sources[i], full, limit) {
      var s := sources[i];
      forall k, r | 0 <= k < |s.walk| && 0 <= r < |full| && full[r] == s.walk[k]
        ensures k < AskedFor(limit, r) && (s.cap.Some? ==> k < s.cap.value)
      {
        ItemInTime(sources, i, k, AskedFor(limit, r));
      }
    }
  }

  lemma MeetInTimeAreReached(sources: seq<Source>, full: seq<Item>, limit: nat)
    requires limit >= 1 && Once(Everything(sources)) && multiset(full) == multiset(Everything(sources))
    requires AllMeetInTime(sources, full, limit)
    ensures ItemsReached(Ask(sources), full, limit, 0)
  {
    forall r | 0 <= r < |full| ensures full[r] in multiset(Ask(sources)(AskedFor(limit, r))) {
      assert full[r] in multiset(full);
      var i := SourceOf(sources, full[r]);
      assert full[r] in sources[i].walk;
      var k :| 0 <= k < |sources[i].walk| && sources[i].walk[k] == full[r];
      assert MeetsInTime(sources[i], full, limit);
      ItemInTime(sources, i, k, AskedFor(limit, r));
    }
  }

  lemma AskIsPermutation(sources: seq<Source>, n: nat)
    ensures multiset(Ask(sources)(n)) == multiset(Collected(sources, n))
  {
    SortIsPermutation(Collected(sources, n));
  }

  lemma PlaceInFull(sources: seq<Source>, i: nat, k: nat) returns (r: nat)
    requires i < |sources| && sources[i].available && k < |sources[i].walk| && Once(Everything(sources))
    ensures r < |Full(sources)| && Full(sources)[r] == sources[i].walk[k]
  {
    AnsweredExactly(sources, i, k, 0);
    FullHasEverything(sources);
    assert sources[i].walk[k] in multiset(Full(sources));
    r :| 0 <= r < |Full(sources)| && Full(sources)[r] == sources[i].walk[k];
  }

  lemma PagesMeetInTime(sources: seq<Source>, full: seq<Item>, limit: nat)
    requires limit >= 1 && Once(Everything(sources)) && PagesReached(Ask(sources), full, limit, 0)
    ensures AllMeetInTime(sources, full, limit)
  {
    PagesAreItems(Ask(sources), full, limit);
    ReachedMeetInTime(sources, full, limit);
  }

  lemma InTimeIsBelowCap(s: Source, full: seq<Item>, limit: nat, k: nat, r: nat)
    requires limit >= 1 && MeetsInTime(s, full, limit)
    requires k < |s.walk| && r < |full| && full[r] == s.walk[k]
    ensures s.cap.Some? ==> k < s.cap.value
  {
  }

  lemma InTimeIsWithinCaps(sources: seq<Source>, limit: nat, i: nat)
    requires limit >= 1 && Once(Everything(sources)) && AllMeetInTime(sources, Full(sources), limit)
    requires i < |sources| && sources[i].available && sources[i].cap.Some?
    ensures |sources[i].walk| <= sources[i].cap.value
  {
    var k := sources[i].cap.value;
    if k < |sources[i].walk| {
      var r := PlaceInFull(sources, i, k);
      InTimeIsBelowCap(sources[i], Full(sources), limit, k, r);
    }
  }

  lemma ReachedIsWithinCaps(sources: seq<Source>, limit: nat)
    requires limit >= 1 && Once(Everything(sources)) && PagesReached(Ask(sources), Full(sources), limit, 0)
    ensures WithinCaps(sources)
  {
    PagesMeetInTime(sources, Full(sources), limit);
    forall i | 0 <= i < |sources| && sources[i].available && sources[i].cap.Some?
      ensures |sources[i].walk| <= sources[i].cap.value
    {
      InTimeIsWithinCaps(sources, limit, i);
    }
  }

  // ----- When a listing is exact -----

  /**
   Following the tokens lists every item once, in order, exactly when the items of each page are among
   the first `offset + limit + 1` items that their own sources meet.
   */
  lemma PaginationIsExact(sources: seq<Source>, limit: nat)
    requires limit >= 1 && Once(Everything(sources))
    ensures Listed(sources, limit) == Full(sources) <==> PagesReached(Ask(sources), Full(sources), limit, 0)
  {
    var full := Full(sources);
    SourcesAsk(sources);
    assert full[0..] == full;
    if PagesReached(Ask(sources), full, limit, 0) {
      ReachedIsWithinCaps(sources, limit);
      ReachedIsExact(Ask(sources), full, limit);
    }
    if Listed(sources, limit) == full { ExactIsReached(Ask(sources), full, limit, 0); }
  }

  /**
   The listing is exact when each source meets each of its items below its cap and, for the item in
   place `r` of the listing, among the first `limit * (r / limit + 1) + 1` of its walk; otherwise it is not.
   */
  lemma ExactlyWhenSourcesMeetInTime(sources: seq<Source>, limit: nat)
    requires limit >= 1 && Once(Everything(sources))
    ensures Listed(sources, limit) == Full(sources) <==> AllMeetInTime(sources, Full(sources), limit)
  {
    var ask, full := Ask(sources), Full(sources);
    PaginationIsExact(sources, limit);
    FullHasEverything(sources);
    PagesAreItems(ask, full, limit);
    if ItemsReached(ask, full, limit, 0) { ReachedMeetInTime(sources, full, limit); }
    if AllMeetInTime(sources, full, limit) { MeetInTimeAreReached(sources, full, limit); }
  }

  // ----- Sources that walk in order -----

  /** Each available source meets its items in the order of the listing and can return them all. */
  predicate WalkInOrder(sources: seq<Source>)
  {
    WithinCaps(sources) && forall i :: 0 <= i < |sources| && sources[i].available ==> Sorted(sources[i].walk)
  }

  /** A sorted part of the listing is what keeping its items leaves. */
  lemma SortedPart(walk: seq<Item>, full: seq<Item>)
    requires Sorted(walk) && Sorted(full) && Once(full) && multiset(walk) <= multiset(full)
    ensures walk == Keep(full, multiset(walk))
  {
    var m := multiset(walk);
    KeepIsSorted(full, m);
    KeptPart(walk, full);
    SortedIsUnique(walk, Keep(full, m));
  }

  /** In a sorted walk an item comes no later than in the whole listing. */
  lemma RankInWalk(walk: seq<Item>, full: seq<Item>, r: nat)
    requires Sorted(walk) && Sorted(full) && Once(full) && multiset(walk) <= multiset(full)
    requires r < |full| && full[r] in multiset(walk)
    ensures full[r] in multiset(walk[..Min(|walk|, r + 1)])
  {
    var m := multiset(walk);
    SortedPart(walk, full);
    KeepPlaces(full, r, m);
    var at := |Keep(full[..r], m)|;
    KeepIsSorted(full[..r], m);
    assert walk[at] == full[r];
    assert walk[..Min(|walk|, r + 1)][at] == full[r];
  }

  /** Where a kept item ends up. */
  lemma KeepPlaces(full: seq<Item>, r: nat, m: multiset<Item>)
    requires r < |full| && full[r] in m
    ensures |Keep(full[..r], m)| < |Keep(full, m)| && Keep(full, m)[|Keep(full[..r], m)|] == full[r]
  {
    assert full == full[..r + 1] + full[r + 1..];
    KeepConcat(full[..r + 1], full[r + 1..], m);
    assert full[..r + 1][..r] == full[..r];
  }

  lemma InOrderIsReached(sources: seq<Source>, full: seq<Item>, r: nat, n: nat)
    requires WalkInOrder(sources) && r < n
    requires Sorted(full) && Once(full) && multiset(Everything(sources)) == multiset(full)
    requires r < |full|
    ensures full[r] in multiset(Collected(sources, n))
  {
    assert full[r] in multiset(full);
    var i := SourceOf(sources, full[r]);
    var walk := sources[i].walk;
    SourcesSplit(sources, i, n);
    PartOfMiddle(Everything(sources[..i]), walk, Everything(sources[i + 1..]));
    RankInWalk(walk, full, r);
    PrefixKeeps(walk, Min(|walk|, r + 1), |Returned(sources[i], n)|, full[r]);
    InMiddle(Collected(sources[..i], n), Returned(sources[i], n), Collected(sources[i + 1..], n), full[r]);
  }

  lemma PrefixKeeps(walk: seq<Item>, j: nat, k: nat, x: Item)
    requires j <= k <= |walk| && x in multiset(walk[..j])
    ensures x in multiset(walk[..k])
  {
    assert walk[..k] == walk[..j] + walk[j..k];
  }

  lemma PartOfMiddle(a: seq<Item>, b: seq<Item>, c: seq<Item>)
    ensures multiset(b) <= multiset(a + (b + c))
  {
  }

  lemma InMiddle(a: seq<Item>, b: seq<Item>, c: seq<Item>, x: Item)
    requires x in multiset(b)
    ensures x in multiset(a + (b + c))
  {
  }

  predicate HoldsFirst(full: seq<Item>, n: nat, answer: multiset<Item>)
  {
    forall r :: 0 <= r < Min(n, |full|) ==> full[r] in answer
  }

  lemma AllInOrderAreReached(sources: seq<Source>, n: nat)
    requires WalkInOrder(sources) && Once(Everything(sources))
    ensures HoldsFirst(Full(sources), n, multiset(Ask(sources)(n)))
  {
    AskIsPermutation(sources, n);
    var full := Full(sources);
    SortIsPermutation(Everything(sources));
    forall r | 0 <= r < Min(n, |full|) ensures full[r] in multiset(Collected(sources, n)) {
      InOrderIsReached(sources, full, r, n);
    }
  }

  lemma InOrderPageIsReached(sources: seq<Source>, limit: nat, offset: nat)
    requires Once(Everything(sources)) && WalkInOrder(sources)
    ensures Reached(Ask(sources), Full(sources), offset, offset + limit, limit + offset + 1)
  {
    AllInOrderAreReached(sources, limit + offset + 1);
    FirstOnesAreReached(Ask(sources), Full(sources), offset, offset + limit, limit + offset + 1);
  }

  lemma FirstOnesAreReached(ask: nat -> seq<Item>, full: seq<Item>, start: nat, end: nat, n: nat)
    requires end <= n && HoldsFirst(full, n, multiset(ask(n)))
    ensures Reached(ask, full, start, end, n)
  {
  }

  lemma {:induction false} InOrderPagesAreReached(sources: seq<Source>, full: seq<Item>, limit: nat, offset: nat)
    requires limit >= 1 && full == Full(sources) && Once(Everything(sources)) && WalkInOrder(sources)
    ensures PagesReached(Ask(sources), full, limit, offset)
    decreases |full| - Min(offset, |full|)
  {
    if offset < |full| {
      InOrderPageIsReached(sources, limit, offset);
      InOrderPagesAreReached(sources, full, limit, offset + limit);
    }
  }

  /** Sources that walk in order are listed exactly, whatever the limit. */
  lemma OrderedWalksAreListedExactly(sources: seq<Source>, limit: nat)
    requires limit >= 1 && Once(Everything(sources)) && WalkInOrder(sources)
    ensures Listed(sources, limit) == Full(sources)
  {
    InOrderPagesAreReached(sources, Full(sources), limit, 0);
    PaginationIsExact(sources, limit);
  }

  /** A source with more items than its cap, such as 501 matches, is never listed completely. */
  lemma CappedSourcesAreCutShort(sources: seq<Source>, limit: nat, i: nat)
    requires limit >= 1 && Once(Everything(sources))
    requires i < |sources| && sources[i].available && sources[i].cap.Some?
    requires sources[i].cap.value < |sources[i].walk|
    ensures Listed(sources, limit) != Full(sources)
  {
    PaginationIsExact(sources, limit);
    if PagesReached(Ask(sources), Full(sources), limit, 0) { ReachedIsWithinCaps(sources, limit); }
  }

  /** In an exact listing the items of the first page are among the first that their sources meet. */
  lemma ExactListingMeetsTheFirstPage(sources: seq<Source>, limit: nat, i: nat, k: nat, r: nat)
    requires limit >= 1 && Once(Everything(sources)) && Listed(sources, limit) == Full(sources)
    requires i < |sources| && sources[i].available && k < |sources[i].walk|
    requires r < limit && r < |Full(sources)| && Full(sources)[r] == sources[i].walk[k]
    ensures k <= limit
  {
    ExactlyWhenSourcesMeetInTime(sources, limit);
    assert MeetsInTime(sources[i], Full(sources), limit);
    AskedForOnPage(limit, 0, r);
  }

  // ----- Searching -----

  const SEARCH_FILE_LIMIT := 4000
  const SEARCH_MATCH_LIMIT := 500

  /** A search in one source: the matches of each file, in the order in which the walk meets the files. */
  datatype Search = Search(files: seq<seq<Item>>, available: bool)

  function Matches(files: seq<seq<Item>>): seq<Item>
  {
    if files == [] then [] else files[0] + Matches(files[1..])
  }

  /** Of how many files the contents are read. */
  function Searched(s: Search): nat { Min(|s.files|, SEARCH_FILE_LIMIT) }

  /** The source of a search holds the matches of the files that are read, in the order in which the workers find them. */
  predicate IsSourceOf(source: Source, s: Search)
  {
    && source.available == s.available && source.cap == Some(SEARCH_MATCH_LIMIT)
    && multiset(source.walk) == multiset(Matches(s.files[..Searched(s)]))
  }

  predicate AreSourcesOf(sources: seq<Source>, searches: seq<Search>)
  {
    |sources| == |searches| && forall i :: 0 <= i < |sources| ==> IsSourceOf(sources[i], searches[i])
  }

  /** Reading the files one after the other is one such order. */
  lemma FilesInTurn(s: Search)
    ensures IsSourceOf(Source(Matches(s.files[..Searched(s)]), Some(500), s.available), s)
  {
  }

  function AllMatches(searches: seq<Search>): seq<Item>
  {
    if searches == [] then []
    else (if searches[0].available then Matches(searches[0].files) else []) + AllMatches(searches[1..])
  }

  /** The matches in files behind the limit. */
  function Overlooked(searches: seq<Search>): seq<Item>
  {
    if searches == [] then []
    else (if searches[0].available then Matches(searches[0].files[Searched(searches[0])..]) else []) + Overlooked(searches[1..])
  }

  lemma {:induction false} MatchesSplit(files: seq<seq<Item>>, k: nat)
    requires k <= |files|
    ensures Matches(files) == Matches(files[..k]) + Matches(files[k..])
  {
    if k > 0 {
      MatchesSplit(files[1..], k - 1);
      assert files[..k][1..] == files[1..][..k - 1] && files[1..][k - 1..] == files[k..];
    } else {
      assert files[..0] == [] && files[0..] == files;
    }
  }

  lemma {:induction false} MatchesAreFoundOrOverlooked(sources: seq<Source>, searches: seq<Search>)
    requires AreSourcesOf(sources, searches)
    ensures multiset(AllMatches(searches)) == multiset(Everything(sources)) + multiset(Overlooked(searches))
  {
    if searches != [] {
      assert IsSourceOf(sources[0], searches[0]);
      MatchesSplit(searches[0].files, Searched(searches[0]));
      assert AreSourcesOf(sources[1..], searches[1..]);
      MatchesAreFoundOrOverlooked(sources[1..], searches[1..]);
    }
  }

  lemma {:induction false} NoMatches(files: seq<seq<Item>>)
    ensures Matches(files) == [] <==> forall k :: 0 <= k < |files| ==> files[k] == []
  {
    if files != [] {
      NoMatches(files[1..]);
      assert forall k :: 0 < k < |files| ==> files[k] == files[1..][k - 1];
    }
  }

  /** No file from the 4001st on has a match. */
  predicate NothingBehind(s: Search) { s.available ==> forall k :: 4000 <= k < |s.files| ==> s.files[k] == [] }

  lemma NothingBehindExactly(s: Search)
    ensures NothingBehind(s) <==> (s.available ==> Matches(s.files[Searched(s)..]) == [])
  {
    var rest := s.files[Searched(s)..];
    NoMatches(rest);
    assert forall k :: Searched(s) <= k < |s.files| ==> s.files[k] == rest[k - Searched(s)];
    assert forall k :: 0 <= k < |rest| ==> rest[k] == s.files[k + Searched(s)];
  }

  /** Nothing is overlooked exactly when no file behind the first 4000 of an available source has a match. */
  lemma {:induction false} OverlookedExactly(searches: seq<Search>)
    ensures Overlooked(searches) == [] <==> forall i :: 0 <= i < |searches| ==> NothingBehind(searches[i])
  {
    if searches != [] {
      OverlookedExactly(searches[1..]);
      NothingBehindExactly(searches[0]);
      assert forall i :: 0 < i < |searches| ==> searches[i] == searches[1..][i - 1];
    }
  }

  /** A search meets its matches in time when each is among the first 500 and early enough for its page. */
  lemma SearchMeetsInTimeExactly(source: Source, s: Search, full: seq<Item>, limit: nat)
    requires limit >= 1 && IsSourceOf(source, s)
    ensures MeetsInTime(source, full, limit) <==>
              forall k, r :: 0 <= k < |source.walk| && 0 <= r < |full| && full[r] == source.walk[k] ==> k < 500 && k < AskedFor(limit, r)
  {
  }

  predicate Each(xs: seq<Item>, ok: Item -> bool) { forall i :: 0 <= i < |xs| ==> ok(xs[i]) }

  ghost predicate EachAnswer(ask: nat -> seq<Item>, ok: Item -> bool) { forall n: nat :: Each(ask(n), ok) }

  /** What holds of everything that is answered holds of everything that the pages show. */
  lemma {:induction false} EachListed(ask: nat -> seq<Item>, bound: nat, limit: nat, offset: nat, ok: Item -> bool)
    requires limit >= 1 && (forall n: nat :: |ask(n)| <= bound) && EachAnswer(ask, ok)
    ensures Each(Follow(ask, bound, limit, offset), ok)
    decreases bound + 1 - Min(offset, bound + 1)
  {
    var merged := ask(limit + offset + 1);
    FollowUnfolds(ask, bound, limit, offset);
    EachPage(merged, limit, offset, ok);
    if |merged| > offset + limit {
      EachListed(ask, bound, limit, offset + limit, ok);
      EachConcat(merged[offset..offset + limit], Follow(ask, bound, limit, offset + limit), ok);
    }
  }

  lemma EachPage(merged: seq<Item>, limit: nat, offset: nat, ok: Item -> bool)
    requires Each(merged, ok)
    ensures |merged| > offset + limit ==> Each(merged[offset..offset + limit], ok)
    ensures Each(merged[Min(offset, |merged|)..], ok)
  {
  }

  lemma EachConcat(a: seq<Item>, b: seq<Item>, ok: Item -> bool)
    requires Each(a, ok) && Each(b, ok)
    ensures Each(a + b, ok)
  {
  }

  lemma ListedIsInSomeSource(sources: seq<Source>, limit: nat, x: Item)
    requires limit >= 1 && x in multiset(Listed(sources, limit))
    ensures x in multiset(Everything(sources))
  {
    var ok := (y: Item) => y in multiset(Everything(sources));
    forall n: nat ensures Each(Ask(sources)(n), ok) {
      CollectedIsPart(sources, n);
      AskIsPermutation(sources, n);
      EachIn(Ask(sources)(n), Everything(sources), ok);
    }
    EachListed(Answers(sources), |Full(sources)|, limit, 0, ok);
    assert x in Listed(sources, limit);
  }

  lemma EachIn(xs: seq<Item>, all: seq<Item>, ok: Item -> bool)
    requires multiset(xs) <= multiset(all) && forall y :: y in multiset(all) ==> ok(y)
    ensures Each(xs, ok)
  {
    forall i | 0 <= i < |xs| ensures ok(xs[i]) { assert xs[i] in multiset(xs); }
  }

  /**
   A search read page by page is the sorted list of all matches if and only if no match lies in a file behind
   the limit and each source meets its matches in time for their pages, below the limit of matches.
   */
  lemma SearchIsListedExactly(sources: seq<Source>, searches: seq<Search>, limit: nat)
    requires limit >= 1 && AreSourcesOf(sources, searches) && Once(AllMatches(searches))
    ensures Listed(sources, limit) == Sort(AllMatches(searches)) <==>
            Overlooked(searches) == [] && AllMeetInTime(sources, Full(sources), limit)
  {
    MatchesAreFoundOrOverlooked(sources, searches);
    OnceInPart(AllMatches(searches), Everything(sources), Overlooked(searches));
    if Overlooked(searches) == [] {
      SortIsUnique(AllMatches(searches), Everything(sources));
      ExactlyWhenSourcesMeetInTime(sources, limit);
    } else if Listed(sources, limit) == Sort(AllMatches(searches)) {
      var x := Overlooked(searches)[0];
      SortIsPermutation(AllMatches(searches));
      ListedIsInSomeSource(sources, limit, x);
      assert false;
    }
  }

  lemma OnceInPart(all: seq<Item>, part: seq<Item>, rest: seq<Item>)
    requires Once(all) && multiset(all) == multiset(part) + multiset(rest)
    ensures Once(part) && forall i :: 0 <= i < |rest| ==> rest[i] in multiset(all) && rest[i] !in multiset(part)
  {
    forall x | x in multiset(part) ensures multiset(part)[x] == 1 { assert x in multiset(all); }
    forall i | 0 <= i < |rest| ensures rest[i] in multiset(all) && rest[i] !in multiset(part) {
      assert rest[i] in multiset(rest);
      assert multiset(all)[rest[i]] == 1;
    }
  }

  lemma SortIsUnique(a: seq<Item>, b: seq<Item>)
    requires multiset(a) == multiset(b)
    ensures Sort(a) == Sort(b)
  {
    SortIsPermutation(a);
    SortIsPermutation(b);
    SortedIsUnique(Sort(a), Sort(b));
  }

  // ----- A listing that is wrong -----

  lemma SortOfThree(a: Item, b: Item, c: Item)
    requires Sorted([a, b, c])
    ensures Sort([c, b, a]) == [a, b, c]
  {
    SortIsPermutation([c, b, a]);
    assert multiset([c, b, a]) == multiset([a, b, c]);
    SortedIsUnique(Sort([c, b, a]), [a, b, c]);
  }

  lemma OneSource(walk: seq<Item>)
    ensures Everything([Source(walk, None, true)]) == walk
  {
    assert [Source(walk, None, true)][1..] == [] && Everything([]) == [];
  }

  lemma ThreeDifferentItems(a: Item, b: Item, c: Item)
    requires a != b && b != c && a != c
    ensures Once([c, b, a])
  {
    assert multiset([c, b, a]) == multiset{a, b, c};
  }

  /** Three files that their source meets in descending order, one on a page, are not listed as they should. */
  lemma DescendingWalkIsListedWrong(a: Item, b: Item, c: Item)
    requires Sorted([a, b, c]) && a != b && b != c && a != c
    ensures Listed([Source([c, b, a], None, true)], 1) != Full([Source([c, b, a], None, true)])
  {
    var sources := [Source([c, b, a], None, true)];
    OneSource([c, b, a]);
    ThreeDifferentItems(a, b, c);
    SortOfThree(a, b, c);
    if Listed(sources, 1) == Full(sources) {
      ExactListingMeetsTheFirstPage(sources, 1, 0, 2, 0);
      assert false;
    }
  }
}
