/**
 * The neighbor registry (src/pages/Neighbors.jsx): a list of contacts kept in
 * page state and mirrored to browser storage, an add form, removal by id, and
 * the single and "alert all" notifications.
 */
module Neighbors {
  import opened Wrappers
  import opened Lists

  datatype Neighbor = Neighbor(name: string, phone: string, address: string, id: int)

  /** The add form's three inputs. */
  datatype Form = Form(name: string, phone: string, address: string)

  /** The `name` attribute of an input, which selects the form field a change event updates. */
  datatype Field = Name | Phone | Address

  const EmptyForm := Form("", "", "")

  function Get(f: Form, k: Field): string
  {
    match k
    case Name => f.name
    case Phone => f.phone
    case Address => f.address
  }

  /** A change event: the named field takes the new value. */
  function Set(f: Form, k: Field, v: string): (g: Form)
    ensures Get(g, k) == v
    ensures forall k' :: k' != k ==> Get(g, k') == Get(f, k')
  {
    match k
    case Name => f.(name := v)
    case Phone => f.(phone := v)
    case Address => f.(address := v)
  }

  /** The add guard: name and phone must be non-empty; nothing else is checked. */
  predicate Submittable(f: Form)
  {
    f.name != "" && f.phone != ""
  }

  /** The record an accepted form becomes; `id` stands for the clock reading the source uses. */
  function Record(f: Form, id: int): Neighbor
  {
    Neighbor(f.name, f.phone, f.address, id)
  }

  function IdIsNot(id: int): Neighbor -> bool
  {
    (n: Neighbor) => n.id != id
  }

  /** The list after removing `id`: every record with a different id, in order. */
  function Without(ns: seq<Neighbor>, id: int): (r: seq<Neighbor>)
    ensures |r| <= |ns|
    ensures forall n :: n in r <==> n in ns && n.id != id
  {
    Filter(IdIsNot(id), ns)
  }

  /**
   * Removal keeps exactly the records whose id differs, every copy of each,
   * in their original order.
   */
  lemma WithoutSpec(ns: seq<Neighbor>, id: int)
    ensures IsSubsequence(Without(ns, id), ns)
    ensures forall n :: n in Without(ns, id) <==> n in ns && n.id != id
    ensures forall n :: multiset(Without(ns, id))[n] == if n.id != id then multiset(ns)[n] else 0
  {
    FilterIsSubsequence(IdIsNot(id), ns);
    FilterMultiset(IdIsNot(id), ns);
  }

  /** Removing an id that no record carries leaves the list as it was, and conversely. */
  lemma WithoutAbsent(ns: seq<Neighbor>, id: int)
    ensures Without(ns, id) == ns <==> forall n :: n in ns ==> n.id != id
  {
    FilterKeepsAll(IdIsNot(id), ns);
  }

  /** Removing the same id twice is the same as removing it once. */
  lemma WithoutIdempotent(ns: seq<Neighbor>, id: int)
    ensures Without(Without(ns, id), id) == Without(ns, id)
  {
    FilterIdempotent(IdIsNot(id), ns);
  }

  /** The call button: the dial link for a phone number. */
  function DialLink(phone: string): (link: string)
    ensures |link| == |phone| + 4 && link[..4] == "tel:" && link[4..] == phone
  {
    "tel:" + phone
  }

  /** Different numbers give different dial links. */
  lemma DialLinkInjective(p: string, q: string)
    ensures DialLink(p) == DialLink(q) ==> p == q
  {
  }

  /** The notices the page shows. */
  datatype Notice =
    | MissingNameOrPhone          // add refused
    | SentTo(name: string)        // one neighbor alerted
    | NoNeighbors                 // "alert all" on an empty list
    | SentToAll(count: nat)       // "alert all" confirmed

  /** One line of the broadcast log: who was alerted, at which number. */
  datatype Send = Send(name: string, phone: string)

  /** The outcome of "alert all": a notice when one is shown, and the sends made. */
  datatype Broadcast = Broadcast(notice: Option<Notice>, sends: seq<Send>)

  /**
   * The page's registry state: the list, the form, and the storage slot the
   * list is mirrored to. `writes` records every value written to that slot.
   */
  class Registry {
    var neighbors: seq<Neighbor>
    var form: Form
    var stored: Option<seq<Neighbor>>
    ghost var writes: seq<seq<Neighbor>>

    /** The storage slot holds the current list, and it was the last value written. */
    ghost predicate Valid()
      reads this
    {
      stored == Some(neighbors) && writes != [] && writes[|writes| - 1] == neighbors
    }

    /**
     * Opening the page with `saved` in storage. The first render persists the
     * initial empty list; a saved list then replaces it and is persisted again.
     */
    constructor Mount(saved: Option<seq<Neighbor>>)
      ensures Valid()
      ensures neighbors == (if saved.Some? then saved.value else [])
      ensures form == EmptyForm
      ensures writes == [[]] + (if saved.Some? then [saved.value] else [])
    {
      neighbors, form, stored, writes := [], EmptyForm, saved, [];
      new;
      Persist();
      if saved.Some? {
        neighbors := saved.value;
        Persist();
      }
    }

    /** The effect that runs after every change of the list: write it to storage. */
    method Persist()
      modifies this
      ensures stored == Some(neighbors) && writes == old(writes) + [neighbors]
      ensures neighbors == old(neighbors) && form == old(form)
    {
      stored := Some(neighbors);
      writes := writes + [neighbors];
    }

    /** Typing into one input: only that form field changes, and storage is not touched. */
    method HandleChange(k: Field, v: string)
      requires Valid()
      modifies this
      ensures Valid()
      ensures form == Set(old(form), k, v)
      ensures neighbors == old(neighbors) && stored == old(stored) && writes == old(writes)
    {
      form := Set(form, k, v);
    }

    /**
     * Submitting the form. With an empty name or phone nothing changes and the
     * notice is shown; otherwise the record goes at the end, the form is
     * cleared and the list is persisted.
     */
    method AddNeighbor(id: int) returns (notice: Option<Notice>)
      requires Valid()
      modifies this
      ensures Valid()
      ensures notice.None? <==> Submittable(old(form))
      ensures notice.Some? ==> notice.value == MissingNameOrPhone
      ensures !Submittable(old(form)) ==>
        neighbors == old(neighbors) && form == old(form) && stored == old(stored) && writes == old(writes)
      ensures Submittable(old(form)) ==>
        neighbors == old(neighbors) + [Record(old(form), id)] && form == EmptyForm &&
        writes == old(writes) + [neighbors]
    {
      if form.name == "" || form.phone == "" {
        return Some(MissingNameOrPhone);
      }
      neighbors := neighbors + [Record(form, id)];
      form := EmptyForm;
      Persist();
      notice := None;
    }

    /** Removing by id; the filtered list is a new list, so it is persisted even when nothing was removed. */
    method RemoveNeighbor(id: int)
      requires Valid()
      modifies this
      ensures Valid()
      ensures neighbors == Without(old(neighbors), id)
      ensures form == old(form) && writes == old(writes) + [neighbors]
    {
      neighbors := Without(neighbors, id);
      Persist();
    }

    /**
     * The alert button on one neighbor: a notice naming them. Nothing is
     * modified, so the list, the form and storage stay as they were.
     */
    method AlertNeighbor(name: string) returns (n: Notice)
      ensures n == SentTo(name)
    {
      n := SentTo(name);
    }

    /**
     * "Alert all". An empty list gives the "no neighbors" notice; otherwise
     * `confirmed` is the user's answer to the confirmation prompt, and a yes
     * sends one alert per neighbor, in list order, and reports their number.
     */
    method AlertAll(confirmed: bool) returns (b: Broadcast)
      ensures neighbors == [] ==> b == Broadcast(Some(NoNeighbors), [])
      ensures neighbors != [] && !confirmed ==> b == Broadcast(None, [])
      ensures neighbors != [] && confirmed ==>
        b.notice == Some(SentToAll(|neighbors|)) && |b.sends| == |neighbors| &&
        forall i :: 0 <= i < |neighbors| ==> b.sends[i] == Send(neighbors[i].name, neighbors[i].phone)
    {
      if |neighbors| == 0 {
        return Broadcast(Some(NoNeighbors), []);
      }
      if !confirmed {
        return Broadcast(None, []);
      }
      var sends: seq<Send> := [];
      var i := 0;
      while i < |neighbors|
        invariant 0 <= i <= |neighbors|
        invariant |sends| == i
        invariant forall j :: 0 <= j < i ==> sends[j] == Send(neighbors[j].name, neighbors[j].phone)
      {
        sends := sends + [Send(neighbors[i].name, neighbors[i].phone)];
        i := i + 1;
      }
      b := Broadcast(Some(SentToAll(|neighbors|)), sends);
    }
  }

  /** Reopening the page after any change shows the list as it was left. */
  method Reload(r: Registry) returns (reopened: Registry)
    requires r.Valid()
    ensures reopened.neighbors == r.neighbors && reopened.form == EmptyForm
  {
    reopened := new Registry.Mount(r.stored);
  }
}
