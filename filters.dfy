/**
 * The two visibility tests of the link list: the search box (`filterLinks`)
 * and the status drop-down (`filterByStatus`). Each decides, card by card,
 * whether the card is shown.
 */
module Filters {
  import opened Text
  import opened Links

  /** What a card exposes to the filters: its title, its URL line and its status class. */
  datatype Card = Card(name: string, url: string, status: Status)

  /** The search test: the lowercased term occurs in the lowercased name or the lowercased URL. */
  predicate SearchMatches(card: Card, term: string) {
    Contains(LowerStr(card.name), LowerStr(term)) || Contains(LowerStr(card.url), LowerStr(term))
  }

  /** `display` for every card after a search: true is `block`, false is `none`. */
  function SearchVisibility(cards: seq<Card>, term: string): (shown: seq<bool>)
    ensures |shown| == |cards|
    ensures forall i :: 0 <= i < |cards| ==> (shown[i] <==> SearchMatches(cards[i], term))
  {
    seq(|cards|, i requires 0 <= i < |cards| => SearchMatches(cards[i], term))
  }

  /** An empty search term keeps every card. */
  lemma EmptySearchShowsAll(card: Card)
    ensures SearchMatches(card, "")
  {
    ContainsEmpty(LowerStr(card.name));
  }

  /** The search ignores letter case in the term. */
  lemma SearchIgnoresTermCase(card: Card, term: string)
    ensures SearchMatches(card, term) <==> SearchMatches(card, LowerStr(term))
  {
    LowerStrIdempotent(term);
  }

  /** Typing more of the term can only hide cards: a card matching `t + more` matches `t`. */
  lemma NarrowingSearchHides(card: Card, term: string, more: string)
    requires SearchMatches(card, term + more)
    ensures SearchMatches(card, term)
  {
    var whole := LowerStr(term + more);
    LowerStrConcat(term, more);
    assert whole[0..|term|] == LowerStr(term);
    assert OccursAt(whole, LowerStr(term), 0);
    if Contains(LowerStr(card.name), whole) {
      ContainsInfix(LowerStr(card.name), whole, LowerStr(term), 0);
    } else {
      ContainsInfix(LowerStr(card.url), whole, LowerStr(term), 0);
    }
  }

  /** A name containing the term verbatim is found whatever the case of either. */
  lemma VerbatimNameIsFound(card: Card, term: string)
    requires Contains(card.name, term)
    ensures SearchMatches(card, term)
  {
    ContainsLower(card.name, term);
  }

  /**
   * The card's status as `filterByStatus` reads it from the status element's
   * classes: `status-paused` wins, then `status-inactive`, otherwise active.
   */
  function CardStatus(hasPausedClass: bool, hasInactiveClass: bool): (s: Status)
    ensures s == Paused <==> hasPausedClass
    ensures s == Inactive <==> !hasPausedClass && hasInactiveClass
  {
    if hasPausedClass then Paused else if hasInactiveClass then Inactive else Active
  }

  /** The status test: the filter is `all` or names the card's status. */
  predicate StatusMatches(filter: string, s: Status) {
    filter == "all" || StatusName(s) == filter
  }

  function StatusVisibility(cards: seq<Card>, filter: string): (shown: seq<bool>)
    ensures |shown| == |cards|
    ensures forall i :: 0 <= i < |cards| ==> (shown[i] <==> StatusMatches(filter, cards[i].status))
  {
    seq(|cards|, i requires 0 <= i < |cards| => StatusMatches(filter, cards[i].status))
  }

  /** Filtering on one status name shows exactly the cards with that status; `all` shows every card. */
  lemma StatusFilterSelects(s: Status, t: Status)
    ensures StatusMatches("all", t)
    ensures StatusMatches(StatusName(s), t) <==> s == t
  {
    StatusNameInjective(s, t);
  }

  /** A filter value that is neither `all` nor a status name hides every card. */
  lemma UnknownStatusHidesAll(filter: string, t: Status)
    requires filter != "all" && filter != "active" && filter != "paused" && filter != "inactive"
    ensures !StatusMatches(filter, t)
  {
  }
}
