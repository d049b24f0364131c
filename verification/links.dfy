/** Peer identities and the heartbeat service's peer list.

    A Link names a remote node by a 128-bit uuid and a human-readable
    description. Two links are the same peer when their uuids agree: the
    description is not guaranteed to be unique, and the uuid is what the
    service logs as the peer's identity.
 */
module Links {

  /** A 128-bit universally unique identifier. */
  newtype Uuid = u: int | 0 <= u < 0x1_0000_0000_0000_0000_0000_0000_0000_0000

  datatype Link = Link(uuid: Uuid, description: string)

  /** The equality the peer list uses to find a link: uuid equality. */
  predicate SameLink(a: Link, b: Link) {
    a.uuid == b.uuid
  }

  /** No entry of `ps` is the same peer as `l`. */
  predicate Absent(ps: seq<Link>, l: Link) {
    forall i :: 0 <= i < |ps| ==> !SameLink(ps[i], l)
  }

  /** The peer list after `std::list::remove(l)`: every entry equal to `l`
      is dropped, the others stay where they were relative to each other. */
  function RemoveLink(ps: seq<Link>, l: Link): (r: seq<Link>)
    ensures |r| <= |ps|
    ensures forall x :: x in r ==> x in ps && !SameLink(x, l)
  {
    if ps == [] then []
    else if SameLink(ps[0], l) then RemoveLink(ps[1..], l)
    else [ps[0]] + RemoveLink(ps[1..], l)
  }

  /** Every entry that is not the removed peer survives the removal. */
  lemma {:induction false} RemoveLinkKeepsOthers(ps: seq<Link>, l: Link, x: Link)
    requires x in ps && !SameLink(x, l)
    ensures x in RemoveLink(ps, l)
  {
    if ps[0] != x {
      RemoveLinkKeepsOthers(ps[1..], l, x);
    }
  }

  /** Membership after removal, both directions. */
  lemma RemoveLinkMembership(ps: seq<Link>, l: Link, x: Link)
    ensures x in RemoveLink(ps, l) <==> x in ps && !SameLink(x, l)
  {
    if x in ps && !SameLink(x, l) {
      RemoveLinkKeepsOthers(ps, l, x);
    }
  }

  /** Removal works piecewise over a concatenation: the survivors of the
      front come before the survivors of the back, so relative order is kept. */
  lemma {:induction false} RemoveLinkAppend(a: seq<Link>, b: seq<Link>, l: Link)
    ensures RemoveLink(a + b, l) == RemoveLink(a, l) + RemoveLink(b, l)
  {
    if a == [] {
      assert a + b == b;
    } else {
      assert (a + b)[0] == a[0];
      assert (a + b)[1..] == a[1..] + b;
      RemoveLinkAppend(a[1..], b, l);
    }
  }

  /** Removal leaves the list unchanged exactly when the peer is absent. */
  lemma {:induction false} RemoveLinkUnchangedIff(ps: seq<Link>, l: Link)
    ensures RemoveLink(ps, l) == ps <==> Absent(ps, l)
  {
    if ps != [] {
      RemoveLinkUnchangedIff(ps[1..], l);
      assert Absent(ps, l) <==> !SameLink(ps[0], l) && Absent(ps[1..], l) by {
        if !SameLink(ps[0], l) && Absent(ps[1..], l) {
          forall i | 0 <= i < |ps| ensures !SameLink(ps[i], l) {
            if i > 0 { assert ps[i] == ps[1..][i - 1]; }
          }
        }
      }
      if SameLink(ps[0], l) {
        assert |RemoveLink(ps, l)| < |ps|;
      } else if RemoveLink(ps, l) == ps {
        assert RemoveLink(ps[1..], l) == ([ps[0]] + RemoveLink(ps[1..], l))[1..];
      }
    }
  }

  /** After a removal the peer is absent, so removing it again changes nothing. */
  lemma RemoveLinkIdempotent(ps: seq<Link>, l: Link)
    ensures Absent(RemoveLink(ps, l), l)
    ensures RemoveLink(RemoveLink(ps, l), l) == RemoveLink(ps, l)
  {
    var r := RemoveLink(ps, l);
    forall i | 0 <= i < |r| ensures !SameLink(r[i], l) {
      assert r[i] in r;
    }
    RemoveLinkUnchangedIff(r, l);
  }

  /** A link that comes up and goes down again leaves the peer list as it
      was, provided no entry already had that uuid. */
  lemma LinkUpThenDown(ps: seq<Link>, l: Link)
    requires Absent(ps, l)
    ensures RemoveLink([l] + ps, l) == ps
  {
    assert ([l] + ps)[1..] == ps;
    RemoveLinkUnchangedIff(ps, l);
  }
}
