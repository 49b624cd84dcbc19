/**
 * The link registry's add operation (`addNewLink`): input validation, the new
 * record it builds, and the collection after the append. The source does not
 * reject a second record with an id already present.
 */
module Registry {
  import opened Text
  import opened Links
  import opened Metrics

  const ShortUrlPrefix: string := "cutt.ly/"

  lemma ConcatAssoc(x: string, y: string, z: string)
    ensures x + y + z == x + (y + z)
  {
  }

  /** Drops the whitespace at the front of `s`. */
  function DropSpaces(s: string): (r: string)
    ensures |r| <= |s|
    ensures r != [] ==> !IsSpace(r[0])
  {
    if s != [] && IsSpace(s[0]) then DropSpaces(s[1..]) else s
  }

  /** What is dropped is a prefix of whitespace; what remains is a suffix of `s`. */
  lemma {:induction false} DropSpacesSuffix(s: string)
    ensures var r := DropSpaces(s);
      r == s[|s| - |r|..] && AllSpace(s[..|s| - |r|])
    decreases |s|
  {
    if s != [] && IsSpace(s[0]) {
      DropSpacesSuffix(s[1..]);
      assert s[1..][..|s| - 1 - |DropSpaces(s)|] == s[1..|s| - |DropSpaces(s)|];
    }
  }

  /** `s.replace(/\s+/g, '-')`: each maximal run of whitespace becomes one hyphen. */
  function ReplaceSpaceRuns(s: string): (r: string)
    ensures |r| <= |s|
    ensures NoSpace(r)
    decreases |s|
  {
    if s == [] then []
    else if IsSpace(s[0]) then "-" + ReplaceSpaceRuns(DropSpaces(s))
    else [s[0]] + ReplaceSpaceRuns(s[1..])
  }

  /** The id `addNewLink` derives from the short-URL suffix: lowercase first, then hyphenate. */
  function Slug(suffix: string): string {
    ReplaceSpaceRuns(LowerStr(suffix))
  }

  predicate NoSpace(s: string) {
    forall i :: 0 <= i < |s| ==> !IsSpace(s[i])
  }

  predicate AllSpace(s: string) {
    forall i :: 0 <= i < |s| ==> IsSpace(s[i])
  }

  /** A suffix without whitespace is only lowercased. */
  lemma {:induction false} ReplaceSpaceRunsOfWord(s: string)
    requires NoSpace(s)
    ensures ReplaceSpaceRuns(s) == s
    decreases |s|
  {
    if s != [] {
      ReplaceSpaceRunsOfWord(s[1..]);
    }
  }

  lemma DropSpacesConcat(ws: string, w: string)
    requires AllSpace(ws)
    requires w == [] || !IsSpace(w[0])
    ensures DropSpaces(ws + w) == w
    decreases |ws|
  {
    if ws != [] {
      assert (ws + w)[1..] == ws[1..] + w;
      DropSpacesConcat(ws[1..], w);
    }
  }

  lemma DropSpacesKeepsTail(a: string, w: string)
    requires a != [] && !IsSpace(a[|a| - 1])
    ensures DropSpaces(a + w) == DropSpaces(a) + w
    decreases |a|
  {
    if IsSpace(a[0]) {
      assert (a + w)[1..] == a[1..] + w;
      DropSpacesKeepsTail(a[1..], w);
    }
  }

  /**
   * The characterisation of replacing runs: splitting a string at any maximal
   * run of whitespace, the result is the two sides' results joined by one hyphen.
   */
  lemma {:induction false} ReplaceSpaceRunsJoin(a: string, ws: string, b: string)
    requires a == [] || !IsSpace(a[|a| - 1])
    requires ws != [] && AllSpace(ws)
    requires b == [] || !IsSpace(b[0])
    ensures ReplaceSpaceRuns(a + ws + b) == ReplaceSpaceRuns(a) + "-" + ReplaceSpaceRuns(b)
    decreases |a|, 1
  {
    if a == [] {
      JoinAtFront(ws, b);
    } else if IsSpace(a[0]) {
      JoinRunFirst(a, ws, b);
    } else {
      JoinWordFirst(a, ws, b);
    }
  }

  lemma {:induction false} JoinRunFirst(a: string, ws: string, b: string)
    requires a != [] && IsSpace(a[0]) && !IsSpace(a[|a| - 1])
    requires ws != [] && AllSpace(ws)
    requires b == [] || !IsSpace(b[0])
    ensures ReplaceSpaceRuns(a + ws + b) == ReplaceSpaceRuns(a) + "-" + ReplaceSpaceRuns(b)
    decreases |a|, 0
  {
    var rest := DropSpaces(a);
    DropSpacesOfWordEnd(a);
    ReplaceSpaceRunsJoin(rest, ws, b);
    ConcatAssoc(rest, ws, b);
    ConcatAssoc(ReplaceSpaceRuns(rest), "-", ReplaceSpaceRuns(b));
    JoinAfterRun(a, ws + b, "-" + ReplaceSpaceRuns(b));
    ConcatAssoc(a, ws, b);
    ConcatAssoc(ReplaceSpaceRuns(a), "-", ReplaceSpaceRuns(b));
  }

  lemma {:induction false} JoinWordFirst(a: string, ws: string, b: string)
    requires a != [] && !IsSpace(a[0]) && !IsSpace(a[|a| - 1])
    requires ws != [] && AllSpace(ws)
    requires b == [] || !IsSpace(b[0])
    ensures ReplaceSpaceRuns(a + ws + b) == ReplaceSpaceRuns(a) + "-" + ReplaceSpaceRuns(b)
    decreases |a|, 0
  {
    ReplaceSpaceRunsJoin(a[1..], ws, b);
    ConcatAssoc(a[1..], ws, b);
    ConcatAssoc(ReplaceSpaceRuns(a[1..]), "-", ReplaceSpaceRuns(b));
    JoinAfterWord(a, ws + b, "-" + ReplaceSpaceRuns(b));
    ConcatAssoc(a, ws, b);
    ConcatAssoc(ReplaceSpaceRuns(a), "-", ReplaceSpaceRuns(b));
  }

  /** One step of the join for a string that starts with a run of whitespace. */
  lemma JoinAfterRun(a: string, c: string, tail: string)
    requires a != [] && IsSpace(a[0]) && !IsSpace(a[|a| - 1])
    requires ReplaceSpaceRuns(DropSpaces(a) + c) == ReplaceSpaceRuns(DropSpaces(a)) + tail
    ensures ReplaceSpaceRuns(a + c) == ReplaceSpaceRuns(a) + tail
  {
    var rest := DropSpaces(a);
    DropSpacesKeepsTail(a, c);
    assert (a + c)[0] == a[0];
    LeadingRun(a + c, rest + c);
    LeadingRun(a, rest);
    var x := ReplaceSpaceRuns(rest);
    assert "-" + (x + tail) == ("-" + x) + tail;
  }

  /** One step of the join for a string that starts with a non-space character. */
  lemma JoinAfterWord(a: string, c: string, tail: string)
    requires a != [] && !IsSpace(a[0])
    requires ReplaceSpaceRuns(a[1..] + c) == ReplaceSpaceRuns(a[1..]) + tail
    ensures ReplaceSpaceRuns(a + c) == ReplaceSpaceRuns(a) + tail
  {
    var s := a + c;
    assert s[0] == a[0];
    assert s[1..] == a[1..] + c;
    LeadingWord(s);
    LeadingWord(a);
    var x := ReplaceSpaceRuns(a[1..]);
    var head := [a[0]];
    assert ReplaceSpaceRuns(s) == head + (x + tail);
    assert ReplaceSpaceRuns(a) == head + x;
    ConcatAssoc(head, x, tail);
  }

  lemma JoinAtFront(ws: string, b: string)
    requires ws != [] && AllSpace(ws)
    requires b == [] || !IsSpace(b[0])
    ensures ReplaceSpaceRuns([] + ws + b) == ReplaceSpaceRuns([]) + "-" + ReplaceSpaceRuns(b)
  {
    assert [] + ws + b == ws + b;
    DropSpacesConcat(ws, b);
    assert (ws + b)[0] == ws[0];
  }

  /** Dropping the leading run of a string that ends in a non-space leaves a non-empty string ending the same way. */
  lemma DropSpacesOfWordEnd(a: string)
    requires a != [] && !IsSpace(a[|a| - 1])
    ensures var rest := DropSpaces(a);
      rest != [] && !IsSpace(rest[|rest| - 1]) && (IsSpace(a[0]) ==> |rest| < |a|)
  {
    DropSpacesSuffix(a);
  }

  lemma LeadingRun(s: string, rest: string)
    requires s != [] && IsSpace(s[0]) && rest == DropSpaces(s)
    ensures ReplaceSpaceRuns(s) == "-" + ReplaceSpaceRuns(rest)
  {
  }

  lemma LeadingWord(s: string)
    requires s != [] && !IsSpace(s[0])
    ensures ReplaceSpaceRuns(s) == [s[0]] + ReplaceSpaceRuns(s[1..])
  {
  }

  /** The derived id never contains whitespace and is no longer than the suffix. */
  lemma SlugShape(suffix: string)
    ensures NoSpace(Slug(suffix)) && |Slug(suffix)| <= |suffix|
  {
  }

  /** A suffix without whitespace gives its lowercased self as id. */
  lemma SlugOfWord(suffix: string)
    requires NoSpace(suffix)
    ensures Slug(suffix) == LowerStr(suffix)
  {
    ReplaceSpaceRunsOfWord(LowerStr(suffix));
  }

  /** Each maximal run of whitespace in the suffix becomes exactly one hyphen in the id. */
  lemma SlugJoin(a: string, ws: string, b: string)
    requires a == [] || !IsSpace(a[|a| - 1])
    requires ws != [] && AllSpace(ws)
    requires b == [] || !IsSpace(b[0])
    ensures Slug(a + ws + b) == Slug(a) + "-" + Slug(b)
  {
    LowerStrConcat(a + ws, b);
    LowerStrConcat(a, ws);
    ReplaceSpaceRunsJoin(LowerStr(a), LowerStr(ws), LowerStr(b));
  }

  /** `addNewLink` proceeds only when all three fields are non-empty. */
  predicate ValidInput(name: string, originalUrl: string, suffix: string) {
    name != "" && originalUrl != "" && suffix != ""
  }

  /** The record `addNewLink` builds; the original URL is validated but not stored. */
  function NewLink(name: string, suffix: string): Link {
    Link(Slug(suffix), name, ShortUrlPrefix + suffix, Active, NoClicks, [0, 0, 0, 0, 0, 0, 0])
  }

  /** The shape of a new record: hyphenated id, prefixed URL, active, all counters and the trend zero. */
  lemma NewLinkShape(name: string, suffix: string)
    ensures var l := NewLink(name, suffix);
      && NoSpace(l.id) && l.name == name
      && l.shortUrl[..|ShortUrlPrefix|] == ShortUrlPrefix && l.shortUrl[|ShortUrlPrefix|..] == suffix
      && l.status == Active
      && (forall k :: CounterOf(l.clicks, k) == 0)
      && WellFormedLink(l) && (forall i :: 0 <= i < |l.trend| ==> l.trend[i] == 0)
  {
    SlugShape(suffix);
  }

  /** `this.links` after `addNewLink`: unchanged on invalid input, the new record appended otherwise. */
  function AddLink(links: seq<Link>, name: string, originalUrl: string, suffix: string): (r: seq<Link>)
    ensures !ValidInput(name, originalUrl, suffix) ==> r == links
    ensures ValidInput(name, originalUrl, suffix) ==> |r| == |links| + 1 && r[..|links|] == links
  {
    if ValidInput(name, originalUrl, suffix) then links + [NewLink(name, suffix)] else links
  }

  /** On valid input the new record is the last one. */
  lemma AddLinkAppendsLast(links: seq<Link>, name: string, originalUrl: string, suffix: string)
    requires ValidInput(name, originalUrl, suffix)
    ensures var r := AddLink(links, name, originalUrl, suffix);
      |r| == |links| + 1 && r[|links|] == NewLink(name, suffix)
      && forall i :: 0 <= i < |links| ==> r[i] == links[i]
  {
  }

  /** Adding keeps every record drawable. */
  lemma AddLinkWellFormed(links: seq<Link>, name: string, originalUrl: string, suffix: string)
    requires WellFormed(links)
    ensures WellFormed(AddLink(links, name, originalUrl, suffix))
  {
  }

  /** A new record contributes nothing to any click aggregate. */
  lemma AddLinkKeepsSums(links: seq<Link>, name: string, originalUrl: string, suffix: string, k: Counter)
    ensures Sum(AddLink(links, name, originalUrl, suffix), k) == Sum(links, k)
    ensures TotalClicks(AddLink(links, name, originalUrl, suffix)) == TotalClicks(links)
    ensures TodayClicks(AddLink(links, name, originalUrl, suffix)) == TodayClicks(links)
  {
    if ValidInput(name, originalUrl, suffix) {
      SumAppend(links, NewLink(name, suffix), k);
      SumAppend(links, NewLink(name, suffix), Total);
      SumAppend(links, NewLink(name, suffix), Daily);
    }
  }

  /** A new record is active, so a successful add counts one more active link. */
  lemma AddLinkCountsActive(links: seq<Link>, name: string, originalUrl: string, suffix: string)
    ensures ActiveCount(AddLink(links, name, originalUrl, suffix))
         == ActiveCount(links) + if ValidInput(name, originalUrl, suffix) then 1 else 0
  {
    if ValidInput(name, originalUrl, suffix) {
      ActiveLinksAppend(links, NewLink(name, suffix));
    }
  }

  /**
   * No uniqueness check: two accepted inputs whose suffixes give the same id
   * append two records that share it.
   */
  lemma AddTwiceDuplicatesId(links: seq<Link>, name1: string, originalUrl1: string, suffix1: string,
                             name2: string, originalUrl2: string, suffix2: string)
    requires ValidInput(name1, originalUrl1, suffix1) && ValidInput(name2, originalUrl2, suffix2)
    requires Slug(suffix1) == Slug(suffix2)
    ensures var r := AddLink(AddLink(links, name1, originalUrl1, suffix1), name2, originalUrl2, suffix2);
      |r| == |links| + 2 && r[|links|].id == r[|links| + 1].id
  {
    var r1 := AddLink(links, name1, originalUrl1, suffix1);
    AddLinkAppendsLast(links, name1, originalUrl1, suffix1);
    AddLinkAppendsLast(r1, name2, originalUrl2, suffix2);
  }

  /**
   * One seeded record with 500 clicks in all; adding "Ab C" appends the id
   * "ab-c", one more active link, and the total still reads "500".
   */
  lemma AddLinkScenario(seed: Link)
    requires seed.clicks.total == 500 && seed.clicks.daily == 50
    ensures var r := AddLink([seed], "X", "u", "Ab C");
      && |r| == 2 && r[1].id == "ab-c"
      && ActiveCount(r) == ActiveCount([seed]) + 1
      && FormatNumber(TotalClicks(r)) == "500"
  {
    SlugOfSpacedSuffix();
    AddLinkCountsActive([seed], "X", "u", "Ab C");
    AddLinkKeepsSums([seed], "X", "u", "Ab C", Total);
    SumAppend([], seed, Total);
    assert [] + [seed] == [seed];
    assert FormatNumber(500) == "500";
  }

  lemma SlugOfSpacedSuffix()
    ensures Slug("Ab C") == "ab-c"
  {
    SlugJoin("Ab", " ", "C");
    SlugOfWord("Ab");
    SlugOfWord("C");
    assert "Ab" + " " + "C" == "Ab C";
  }
}
