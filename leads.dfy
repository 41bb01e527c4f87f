/**
 * The backend's in-memory lead table: a module-level list of stored leads and
 * a counter holding the id the next lead receives.
 */
module Leads {

  /** The request body `LeadIn`. */
  datatype LeadIn = LeadIn(nombre: string, email: string)

  /** A stored lead, `LeadOut`: the request fields plus the id it was given. */
  datatype Lead = Lead(id: nat, nombre: string, email: string)

  /** The table that results from accepting `requests` in order into an empty store. */
  function Stamped(requests: seq<LeadIn>): (db: seq<Lead>)
    ensures |db| == |requests|
    decreases |requests|
  {
    if requests == [] then []
    else
      var n := |requests| - 1;
      Stamped(requests[..n]) + [Lead(n + 1, requests[n].nombre, requests[n].email)]
  }

  /** The k-th stored lead carries the k-th request's fields and id k + 1. */
  lemma {:induction false} StampedAt(requests: seq<LeadIn>, k: nat)
    requires k < |requests|
    ensures Stamped(requests)[k] == Lead(k + 1, requests[k].nombre, requests[k].email)
    decreases |requests|
  {
    var n := |requests| - 1;
    if k < n {
      StampedAt(requests[..n], k);
    }
  }

  /** Ids are exactly 1, 2, ..., |db| in insertion order. */
  predicate IdsSequential(db: seq<Lead>)
  {
    forall k :: 0 <= k < |db| ==> db[k].id == k + 1
  }

  lemma StampedIdsSequential(requests: seq<LeadIn>)
    ensures IdsSequential(Stamped(requests))
  {
    forall k | 0 <= k < |requests|
      ensures Stamped(requests)[k].id == k + 1
    {
      StampedAt(requests, k);
    }
  }

  /** Sequential ids are strictly increasing, hence pairwise distinct. */
  lemma SequentialIdsIncrease(db: seq<Lead>)
    requires IdsSequential(db)
    ensures forall j, k :: 0 <= j < k < |db| ==> db[j].id < db[k].id
    ensures forall j, k :: 0 <= j < |db| && 0 <= k < |db| && j != k ==> db[j].id != db[k].id
  {
  }

  class LeadStore {
    var db: seq<Lead>                 // _fake_db
    var counter: nat                  // _counter
    ghost var requests: seq<LeadIn>   // every request accepted so far, in arrival order

    ghost predicate Valid()
      reads this
    {
      counter == |db| + 1 && db == Stamped(requests)
    }

    /** Module import: an empty list and the counter at 1. */
    constructor ()
      ensures Valid() && db == [] && counter == 1 && requests == []
    {
      db := [];
      counter := 1;
      requests := [];
    }

    /** `POST /leads`: stamps the lead with the current counter, appends it, then
        advances the counter. */
    method CreateLead(data: LeadIn) returns (lead: Lead)
      requires Valid()
      modifies this
      ensures Valid() && requests == old(requests) + [data]
      ensures lead == Lead(old(counter), data.nombre, data.email)
      ensures db == old(db) + [lead] && counter == old(counter) + 1
      ensures IdsSequential(db)
    {
      lead := Lead(counter, data.nombre, data.email);
      db := db + [lead];
      counter := counter + 1;
      requests := requests + [data];
      StampedIdsSequential(requests);
    }

    /** `GET /leads`: the stored leads, oldest first; nothing changes. */
    method ListLeads() returns (leads: seq<Lead>)
      requires Valid()
      ensures leads == db && |leads| == counter - 1
      ensures IdsSequential(leads)
      ensures forall k :: 0 <= k < |leads| ==>
        leads[k].nombre == requests[k].nombre && leads[k].email == requests[k].email
    {
      leads := db;
      StampedIdsSequential(requests);
      forall k | 0 <= k < |leads|
        ensures leads[k].nombre == requests[k].nombre && leads[k].email == requests[k].email
      {
        StampedAt(requests, k);
      }
    }
  }

  /** Two posts then a listing, from the initial state. */
  method TwoLeads()
  {
    var store := new LeadStore();
    var a := store.CreateLead(LeadIn("Ana", "ana@example.com"));
    var b := store.CreateLead(LeadIn("Luis", "luis@example.com"));
    assert a.id == 1 && b.id == 2;
    var all := store.ListLeads();
    assert all == [a, b] && store.counter == 3;
  }
}
