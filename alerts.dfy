/**
 * The live alert feed (src/pages/Alerts.jsx): three seeded alerts, a timer
 * that puts a new Critical alert at the front, a case-insensitive search over
 * type and message, and per-type counts over the whole list.
 */
module Alerts {
  import opened Lists
  import opened Strings

  /** One alert card; its colour and icon follow from `kind` and are not modelled. */
  datatype Alert = Alert(id: int, kind: string, message: string, time: string)

  /** The three alert types the page ever creates. */
  predicate IsKind(kind: string)
  {
    kind == "Critical" || kind == "Warning" || kind == "Info"
  }

  predicate WellKinded(alerts: seq<Alert>)
  {
    forall a :: a in alerts ==> IsKind(a.kind)
  }

  /** The feed as the page first shows it: ids 1, 2, 3 with types Critical, Warning, Info. */
  function Seed(): (s: seq<Alert>)
    ensures |s| == 3 && WellKinded(s)
    ensures s[0].id == 1 && s[1].id == 2 && s[2].id == 3
    ensures s[0].kind == "Critical" && s[1].kind == "Warning" && s[2].kind == "Info"
  {
    [ Alert(1, "Critical", "Heavy rainfall expected in Bhopal. Stay indoors!", "2 mins ago"),
      Alert(2, "Warning", "Flood alert issued near Upper Lake. Avoid low-lying areas.", "10 mins ago"),
      Alert(3, "Info", "Relief camp set up at TT Nagar Stadium, Bhopal.", "30 mins ago") ]
  }

  /**
   * The alert each timer tick creates; `id` stands for the clock reading the
   * source uses. It is Critical, one of the three known types.
   */
  function Generated(id: int): (a: Alert)
    ensures a.id == id && a.kind == "Critical" && IsKind(a.kind)
    ensures a.time == "Just now"
  {
    Alert(id, "Critical", "New sudden alert generated! Stay tuned!", "Just now")
  }

  /** The search test: the lower-cased type or message contains the lower-cased query. */
  predicate Matches(a: Alert, query: string)
  {
    Contains(Lower(a.kind), Lower(query)) || Contains(Lower(a.message), Lower(query))
  }

  function Matching(query: string): Alert -> bool
  {
    (a: Alert) => Matches(a, query)
  }

  /** The alerts the search box lets through. */
  function Visible(alerts: seq<Alert>, query: string): (r: seq<Alert>)
    ensures |r| <= |alerts|
    ensures forall a :: a in r <==> a in alerts && Matches(a, query)
  {
    Filter(Matching(query), alerts)
  }

  function OfKind(kind: string): Alert -> bool
  {
    (a: Alert) => a.kind == kind
  }

  /** The type of each alert, in list order. */
  function Kinds(alerts: seq<Alert>): seq<string>
  {
    seq(|alerts|, i requires 0 <= i < |alerts| => alerts[i].kind)
  }

  /** Filtering by type keeps as many alerts as the list has entries of that type. */
  lemma {:induction false} FilterKindCount(alerts: seq<Alert>, kind: string)
    ensures |Filter(OfKind(kind), alerts)| == multiset(Kinds(alerts))[kind]
  {
    if alerts != [] {
      FilterKindCount(alerts[1..], kind);
      assert Kinds(alerts) == [alerts[0].kind] + Kinds(alerts[1..]);
      assert Filter(OfKind(kind), alerts)
        == (if alerts[0].kind == kind then [alerts[0]] else []) + Filter(OfKind(kind), alerts[1..]);
    }
  }

  /** The number of alerts of one type, over the whole list. */
  function Count(alerts: seq<Alert>, kind: string): (c: nat)
    ensures c == multiset(Kinds(alerts))[kind]
    ensures c <= |alerts|
    ensures c == 0 <==> forall a :: a in alerts ==> a.kind != kind
  {
    FilterDropsAll(OfKind(kind), alerts);
    FilterKindCount(alerts, kind);
    |Filter(OfKind(kind), alerts)|
  }

  /** The search result keeps the list's order and holds every copy of each matching alert and nothing else. */
  lemma VisibleSpec(alerts: seq<Alert>, query: string)
    ensures IsSubsequence(Visible(alerts, query), alerts)
    ensures forall a :: a in Visible(alerts, query) <==> a in alerts && Matches(a, query)
    ensures forall a :: multiset(Visible(alerts, query))[a] == if Matches(a, query) then multiset(alerts)[a] else 0
  {
    FilterIsSubsequence(Matching(query), alerts);
    FilterMultiset(Matching(query), alerts);
  }

  /** An empty search box shows the whole list. */
  lemma VisibleEmptyQuery(alerts: seq<Alert>)
    ensures Visible(alerts, "") == alerts
  {
    forall a | a in alerts
      ensures Matches(a, "")
    {
      assert Lower("") == "";
      ContainsEmpty(Lower(a.kind));
    }
    FilterKeepsAll(Matching(""), alerts);
  }

  /** The search ignores the case of the query. */
  lemma VisibleIgnoresQueryCase(alerts: seq<Alert>, query: string)
    ensures Visible(alerts, query) == Visible(alerts, Lower(query))
  {
    LowerIdempotent(query);
    FilterAgree(Matching(query), Matching(Lower(query)), alerts);
  }

  /** After a tick, the search result is the old one with the new alert in front if it matches. */
  lemma VisibleAfterTick(alerts: seq<Alert>, query: string, id: int)
    ensures Visible([Generated(id)] + alerts, query)
         == (if Matches(Generated(id), query) then [Generated(id)] else []) + Visible(alerts, query)
  {
    FilterAppend(Matching(query), [Generated(id)], alerts);
    assert [Generated(id)][1..] == [];
  }

  /** When every alert has one of the three types, the three counts add up to the list length. */
  lemma {:induction false} CountsCoverList(alerts: seq<Alert>)
    requires WellKinded(alerts)
    ensures Count(alerts, "Critical") + Count(alerts, "Warning") + Count(alerts, "Info") == |alerts|
  {
    if alerts != [] {
      assert alerts == [alerts[0]] + alerts[1..];
      assert alerts[0] in alerts;
      forall a | a in alerts[1..]
        ensures IsKind(a.kind)
      {
        assert a in alerts;
      }
      CountsCoverList(alerts[1..]);
    }
  }

  /** A tick raises the Critical count by one and leaves the other two alone. */
  lemma CountsAfterTick(alerts: seq<Alert>, id: int)
    ensures Count([Generated(id)] + alerts, "Critical") == Count(alerts, "Critical") + 1
    ensures Count([Generated(id)] + alerts, "Warning") == Count(alerts, "Warning")
    ensures Count([Generated(id)] + alerts, "Info") == Count(alerts, "Info")
  {
    FilterAppend(OfKind("Critical"), [Generated(id)], alerts);
    FilterAppend(OfKind("Warning"), [Generated(id)], alerts);
    FilterAppend(OfKind("Info"), [Generated(id)], alerts);
    assert [Generated(id)][1..] == [];
  }

  datatype Tally = Tally(critical: nat, warning: nat, info: nat)

  /** The three figures at the top of the page. */
  function Summary(alerts: seq<Alert>): (t: Tally)
    ensures WellKinded(alerts) ==> t.critical + t.warning + t.info == |alerts|
  {
    var t := Tally(Count(alerts, "Critical"), Count(alerts, "Warning"), Count(alerts, "Info"));
    if WellKinded(alerts) then CountsCoverList(alerts); t else t
  }

  /** The page's alert state: the list, which the timer grows, and the search text. */
  class Feed {
    var alerts: seq<Alert>
    var search: string

    ghost predicate Valid()
      reads this
    {
      WellKinded(alerts)
    }

    constructor ()
      ensures Valid()
      ensures alerts == Seed() && search == ""
      ensures Summary(alerts).critical + Summary(alerts).warning + Summary(alerts).info == |alerts|
    {
      alerts := Seed();
      search := "";
    }

    /** One timer tick: the new Critical alert goes in front, the rest follows unchanged. */
    method Tick(id: int)
      requires Valid()
      modifies this
      ensures Valid()
      ensures alerts == [Generated(id)] + old(alerts)
      ensures search == old(search)
      ensures Summary(alerts).critical == old(Summary(alerts)).critical + 1
      ensures Summary(alerts).warning == old(Summary(alerts)).warning
      ensures Summary(alerts).info == old(Summary(alerts)).info
      ensures Summary(alerts).critical + Summary(alerts).warning + Summary(alerts).info == |alerts|
    {
      CountsAfterTick(alerts, id);
      alerts := [Generated(id)] + alerts;
    }

    /** Typing in the search box: only the search text changes, so the counts do not. */
    method SetSearch(query: string)
      requires Valid()
      modifies this
      ensures Valid()
      ensures search == query && alerts == old(alerts)
      ensures Summary(alerts) == old(Summary(alerts))
    {
      search := query;
    }

    /** The cards the page shows: the alerts that match the current search. */
    function Shown(): (r: seq<Alert>)
      reads this
      ensures forall a :: a in r <==> a in alerts && Matches(a, search)
    {
      Visible(alerts, search)
    }
  }
}
