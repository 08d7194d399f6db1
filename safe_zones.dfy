/**
 * The shelter list (src/pages/SafeZones.jsx): a fixed table of safe zones,
 * the badge class and icon shown for a zone's status, and the status filter.
 */
module SafeZones {
  import opened Wrappers
  import opened Lists

  datatype Zone = Zone(id: nat, name: string, location: string, lat: real, lng: real, capacity: string, status: string)

  /** The three statuses a zone can carry. */
  predicate KnownStatus(status: string)
  {
    status == "Available" || status == "Almost Full" || status == "Full"
  }

  /** The four shelters the page lists, in display order. */
  function Table(): (t: seq<Zone>)
    ensures |t| == 4
    ensures forall i :: 0 <= i < |t| ==> t[i].id == i + 1 && KnownStatus(t[i].status)
  {
    [ Zone(1, "Lal Parade Ground Shelter", "Bhopal", 23.2599, 77.4126, "800", "Available"),
      Zone(2, "AIIMS Bhopal Relief Center", "Bhopal", 23.2146, 77.431, "600", "Almost Full"),
      Zone(3, "BHEL Township Community Hall", "Bhopal", 23.2733, 77.4344, "400", "Available"),
      Zone(4, "Govt. Polytechnic College Ground", "Bhopal", 23.247, 77.5012, "500", "Full") ]
  }

  const GrayBadge := "bg-gray-100 text-gray-600 border-gray-300"

  /** The badge class for a status; any status outside the three known ones gets the gray default. */
  function StatusClass(status: string): (c: string)
    ensures c == GrayBadge <==> !KnownStatus(status)
  {
    match status
    case "Available" => "bg-green-100 text-green-700 border-green-300"
    case "Almost Full" => "bg-yellow-100 text-yellow-700 border-yellow-300"
    case "Full" => "bg-red-100 text-red-700 border-red-300"
    case _ => GrayBadge
  }

  /** The three known statuses get three different badge classes. */
  lemma StatusClassDistinct(s: string, t: string)
    requires KnownStatus(s) && KnownStatus(t)
    ensures StatusClass(s) == StatusClass(t) <==> s == t
  {
  }

  datatype Icon = CheckCircle | Warning | Cross

  /** The icon beside a status: none for a status outside the three known ones. */
  function StatusIcon(status: string): (icon: Option<Icon>)
    ensures icon.None? <==> !KnownStatus(status)
  {
    match status
    case "Available" => Some(CheckCircle)
    case "Almost Full" => Some(Warning)
    case "Full" => Some(Cross)
    case _ => None
  }

  /** The three known statuses get three different icons. */
  lemma StatusIconDistinct(s: string, t: string)
    requires KnownStatus(s) && KnownStatus(t)
    ensures StatusIcon(s) == StatusIcon(t) <==> s == t
  {
  }

  function HasStatus(status: string): Zone -> bool
  {
    (z: Zone) => z.status == status
  }

  /** The zones shown for a filter value: the whole list for "All", otherwise the zones with exactly that status. */
  function Shown(zones: seq<Zone>, filter: string): (r: seq<Zone>)
    ensures |r| <= |zones|
    ensures forall z :: z in r ==> z in zones
    ensures filter != "All" ==> forall z :: z in r <==> z in zones && z.status == filter
  {
    if filter == "All" then zones else Filter(HasStatus(filter), zones)
  }

  /** The filter "All" shows every zone, in order. */
  lemma ShownAll(zones: seq<Zone>)
    ensures Shown(zones, "All") == zones
  {
  }

  /**
   * Any other filter value shows exactly the zones whose status equals it,
   * every copy of each, in their original order.
   */
  lemma ShownByStatus(zones: seq<Zone>, filter: string)
    requires filter != "All"
    ensures IsSubsequence(Shown(zones, filter), zones)
    ensures forall z :: z in Shown(zones, filter) <==> z in zones && z.status == filter
    ensures forall z :: multiset(Shown(zones, filter))[z] == if z.status == filter then multiset(zones)[z] else 0
  {
    FilterIsSubsequence(HasStatus(filter), zones);
    FilterMultiset(HasStatus(filter), zones);
  }

  /** A filter value that no zone carries shows nothing. */
  lemma ShownUnmatched(zones: seq<Zone>, filter: string)
    requires filter != "All"
    requires forall z :: z in zones ==> z.status != filter
    ensures Shown(zones, filter) == []
  {
    FilterDropsAll(HasStatus(filter), zones);
  }

  /** Filtering the shown list again by the same value changes nothing. */
  lemma ShownIdempotent(zones: seq<Zone>, filter: string)
    ensures Shown(Shown(zones, filter), filter) == Shown(zones, filter)
  {
    if filter != "All" {
      FilterIdempotent(HasStatus(filter), zones);
    }
  }

  /** On the page's own table, "Available" shows the first and third shelters. */
  lemma AvailableOnTable()
    ensures Shown(Table(), "Available") == [Table()[0], Table()[2]]
  {
  }

  /** On the page's own table, "Full" shows only the last shelter. */
  lemma FullOnTable()
    ensures Shown(Table(), "Full") == [Table()[3]]
  {
  }
}
