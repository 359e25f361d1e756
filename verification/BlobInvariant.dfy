/** What the single steps of the blob catalogue keep. */
module BlobInvariant {
  import opened Manifests
  import opened Sums
  import opened BlobModel

  // ---- Deleting ----

  lemma ReadySizesWithout(catalog: map<Hash, Row>, h: Hash)
    requires h in catalog
    ensures ReadySizes(catalog - {h}) == ReadySizes(catalog) - {h}
    ensures ReadySizes(catalog[h := catalog[h].(ready := false)]) == ReadySizes(catalog) - {h}
  {
  }

  /** Deleting a ready row frees exactly its size, whether or not the file could be removed. */
  lemma DeleteFrees(s: State, h: Hash, stuck: set<Hash>)
    requires Ready(s, h)
    ensures Used(Delete(s, h, stuck)) == Used(s) - s.catalog[h].size
  {
    ReadySizesWithout(s.catalog, h);
    SumRemove(ReadySizes(s.catalog), h);
  }

  lemma DeleteUsed(s: State, h: Hash, stuck: set<Hash>)
    ensures Used(Delete(s, h, stuck)) <= Used(s)
  {
    hide Pinned;
    if Ready(s, h) {
      DeleteFrees(s, h, stuck);
    } else {
      assert ReadySizes(Delete(s, h, stuck).catalog) == ReadySizes(s.catalog);
    }
  }

  /** A step that only deletes unowned and unleased rows. */
  ghost predicate Trimmed(s: State, t: State) {
    && t == s.(catalog := t.catalog, owners := t.owners)
    && t.owners == s.owners && Used(t) <= Used(s)
    && (forall h :: Ready(t, h) ==> Ready(s, h) && t.catalog[h] == s.catalog[h])
    && (forall h :: Ready(s, h) && (Owned(s.owners, h) || h in s.leases) ==> Ready(t, h))
  }

  lemma DeleteTrims(s: State, h: Hash, stuck: set<Hash>)
    requires !Owned(s.owners, h) && h !in s.leases
    ensures Trimmed(s, Delete(s, h, stuck))
    ensures !Ready(Delete(s, h, stuck), h)
    ensures forall g :: g != h ==> (Ready(Delete(s, h, stuck), g) <==> Ready(s, g))
  {
    DeleteUsed(s, h, stuck);
    hide Used, Pinned;
    assert (set p | p in s.owners && p.1 != h) == s.owners;
  }

  lemma TrimmedTrans(s: State, t: State, u: State)
    requires Trimmed(s, t) && Trimmed(t, u)
    ensures Trimmed(s, u)
  {
  }

  lemma TrimmedKeeps(s: State, t: State)
    requires Trimmed(s, t) && Valid(s)
    ensures Valid(t)
    ensures RoutesHeld(s) ==> RoutesHeld(t)
    ensures Accounted(s) ==> Accounted(t)
  {
    hide Used, Owned;
    forall p | p in t.owners ensures Ready(t, p.1) {
      OwnedBy(s.owners, p);
    }
  }

  lemma OwnedBy(owners: set<(Owner, Hash)>, p: (Owner, Hash))
    requires p in owners
    ensures Owned(owners, p.1)
  {
  }

  lemma DeleteIfUnownedWriteTrims(s: State, h: Hash, stuck: set<Hash>)
    ensures Trimmed(s, DeleteIfUnownedWrite(s, h, stuck))
  {
    hide Used, Owned, Delete;
    if !(h in s.leases || h !in s.catalog || Owned(s.owners, h) || s.catalog[h].origin != Write) {
      DeleteTrims(s, h, stuck);
    }
  }

  /** Every write row that lost its last holder is gone once the loop has passed it. */
  lemma {:induction false} DeleteEachTrims(s: State, hs: seq<Hash>, stuck: set<Hash>)
    ensures Trimmed(s, DeleteEach(s, hs, stuck))
    ensures forall i :: 0 <= i < |hs| ==> Settled(DeleteEach(s, hs, stuck), hs[i])
    decreases |hs|
  {
    hide Used, Owned, DeleteIfUnownedWrite, Delete;
    if hs != [] {
      var t := DeleteIfUnownedWrite(s, hs[0], stuck);
      DeleteIfUnownedWriteTrims(s, hs[0], stuck);
      SettledAfterDelete(s, hs[0], stuck);
      DeleteEachTrims(t, hs[1..], stuck);
      TrimmedTrans(s, t, DeleteEach(t, hs[1..], stuck));
      assert forall i :: 0 < i < |hs| ==> hs[i] == hs[1..][i - 1];
    }
  }

  /** A ready row of write origin has an owner or a reader. */
  ghost predicate Settled(s: State, h: Hash) {
    Ready(s, h) && s.catalog[h].origin == Write ==> Owned(s.owners, h) || h in s.leases
  }

  lemma SettledAfterDelete(s: State, h: Hash, stuck: set<Hash>)
    ensures Settled(DeleteIfUnownedWrite(s, h, stuck), h)
  {
  }

  // ---- Owners ----

  /** Dropping owner rows and then trimming every blob that had one of them leaves no lost blob. */
  lemma DisownKeeps(s: State, owners: set<(Owner, Hash)>, hs: seq<Hash>, stuck: set<Hash>)
    requires Valid(s) && owners <= s.owners
    ensures Valid(DeleteEach(s.(owners := owners), hs, stuck))
    ensures Accounted(s) && (forall p :: p in s.owners && p !in owners ==> Among(hs, p.1))
            ==> Accounted(DeleteEach(s.(owners := owners), hs, stuck))
  {
    var m := s.(owners := owners);
    var t := DeleteEach(m, hs, stuck);
    DeleteEachTrims(m, hs, stuck);
    hide DeleteEach;
    assert Valid(m) by { assert ReadyBytes(m) == ReadyBytes(s); }
    TrimmedKeeps(m, t);
    if Accounted(s) && (forall p :: p in s.owners && p !in owners ==> Among(hs, p.1)) {
      forall h | Ready(t, h) && t.catalog[h].origin == Write ensures Owned(t.owners, h) || h in t.leases {
        assert Ready(s, h) && s.catalog[h] == t.catalog[h];
        assert forall i :: 0 <= i < |hs| ==> Settled(t, hs[i]);
      }
    }
  }

  lemma ReleaseOwnerKeeps(s: State, owner: Owner, hashes: seq<Hash>, stuck: set<Hash>)
    requires Valid(s) && OwnedList(s, owner, hashes)
    ensures Valid(ReleaseOwner(s, owner, hashes, stuck))
    ensures Accounted(s) ==> Accounted(ReleaseOwner(s, owner, hashes, stuck))
  {
    DisownKeeps(s, Disowned(s.owners, owner), hashes, stuck);
    forall p | p in s.owners && p !in Disowned(s.owners, owner) ensures Among(hashes, p.1) {
      assert p == (owner, p.1);
    }
  }

  lemma ReleaseOwnerOfKeeps(s: State, owner: Owner, h: Hash, stuck: set<Hash>)
    requires Valid(s)
    ensures Valid(ReleaseOwnerOf(s, owner, h, stuck))
    ensures Accounted(s) ==> Accounted(ReleaseOwnerOf(s, owner, h, stuck))
  {
    var m := s.(owners := s.owners - {(owner, h)});
    assert DeleteEach(m, [h], stuck) == ReleaseOwnerOf(s, owner, h, stuck) by {
      assert DeleteEach(DeleteIfUnownedWrite(m, h, stuck), [h][1..], stuck) == DeleteIfUnownedWrite(m, h, stuck);
    }
    DisownKeeps(s, m.owners, [h], stuck);
    assert [h][0] == h;
  }

  lemma TransferOwnerValid(s: State, src: Owner, dst: Owner, swept: seq<Hash>, stuck: set<Hash>)
    requires Valid(s)
    ensures Valid(TransferOwner(s, src, dst, swept, stuck))
  {
    var m := s.(owners := Transferred(s.owners, src, dst));
    assert Valid(m) by { assert ReadyBytes(m) == ReadyBytes(s); }
    DeleteEachTrims(m, swept, stuck);
    TrimmedKeeps(m, DeleteEach(m, swept, stuck));
  }

  /** Exactly when a transfer leaves every owned blob owned: between distinct owners, or where
      each blob has another owner besides. */
  lemma TransferKeepsOwnedIff(s: State, src: Owner, dst: Owner)
    ensures (forall h :: Owned(s.owners, h) ==> Owned(Transferred(s.owners, src, dst), h))
       <==> (src != dst || forall h :: (src, h) in s.owners ==> exists o :: o != src && (o, h) in s.owners)
  {
    var after := Transferred(s.owners, src, dst);
    if src != dst {
      forall h | Owned(s.owners, h) ensures Owned(after, h) {
        var p :| p in s.owners && p.1 == h;
        assert (if p.0 == src then (dst, h) else p) in after;
      }
    } else {
      assert after == Disowned(s.owners, src);
      forall h | (src, h) in s.owners ensures Owned(after, h) <==> exists o :: o != src && (o, h) in s.owners {
        assert Owned(s.owners, h) by { OwnedBy(s.owners, (src, h)); }
        if o :| o != src && (o, h) in s.owners {
          assert (o, h) in after;
        }
        if Owned(after, h) {
          var p :| p in after && p.1 == h;
          assert p == (p.0, h);
        }
      }
      forall h: Hash | Owned(s.owners, h) && (src, h) !in s.owners ensures Owned(after, h) {
        var p :| p in s.owners && p.1 == h;
        assert p in after;
      }
      forall h | (src, h) in s.owners ensures Owned(s.owners, h) {
        OwnedBy(s.owners, (src, h));
      }
    }
  }

  /** Between distinct owners the sweep finds nothing to delete. */
  lemma TransferOwnerKeeps(s: State, src: Owner, dst: Owner, swept: seq<Hash>, stuck: set<Hash>)
    requires Valid(s) && Accounted(s) && src != dst
    ensures Accounted(TransferOwner(s, src, dst, swept, stuck))
    ensures forall h :: Ready(s, h) ==> Ready(TransferOwner(s, src, dst, swept, stuck), h)
  {
    var m := s.(owners := Transferred(s.owners, src, dst));
    assert Accounted(m) by { TransferKeepsOwnedIff(s, src, dst); }
    TransferOwnerValid(s, src, dst, swept, stuck);
    SweepIdle(m, swept, stuck);
  }

  /** A transfer of listed blobs gives no blob a first owner, and between distinct owners takes none
      its last. */
  lemma {:induction false} TransferEachOwned(owners: set<(Owner, Hash)>, src: Owner, dst: Owner, hashes: seq<Hash>)
    ensures forall g :: Owned(TransferredEach(owners, src, dst, hashes), g) ==> Owned(owners, g)
    ensures src != dst ==> forall g :: Owned(owners, g) ==> Owned(TransferredEach(owners, src, dst, hashes), g)
    decreases |hashes|
  {
    if hashes != [] {
      var h := hashes[0];
      var next := (if (src, h) in owners then owners + {(dst, h)} else owners) - {(src, h)};
      TransferEachOwned(next, src, dst, hashes[1..]);
      hide TransferredEach;
      forall g | Owned(next, g) ensures Owned(owners, g) {
        var p :| p in next && p.1 == g;
        OwnedBy(owners, if p in owners then p else (src, h));
      }
      if src != dst {
        forall g | Owned(owners, g) ensures Owned(next, g) {
          var p :| p in owners && p.1 == g;
          OwnedBy(next, if p == (src, h) then (dst, h) else p);
        }
      }
    }
  }

  lemma TransferListedKeeps(s: State, src: Owner, dst: Owner, hashes: seq<Hash>, swept: seq<Hash>, stuck: set<Hash>)
    requires Valid(s)
    ensures Valid(TransferListed(s, src, dst, hashes, swept, stuck))
    ensures Accounted(s) && src != dst ==> Accounted(TransferListed(s, src, dst, hashes, swept, stuck))
  {
    var m := s.(owners := TransferredEach(s.owners, src, dst, hashes));
    TransferEachOwned(s.owners, src, dst, hashes);
    hide TransferredEach;
    assert Valid(m) by {
      assert ReadyBytes(m) == ReadyBytes(s);
      hide ReadyBytes;
      forall p | p in m.owners ensures Ready(m, p.1) {
        OwnedBy(m.owners, p);
        var q :| q in s.owners && q.1 == p.1;
      }
    }
    DeleteEachTrims(m, swept, stuck);
    TrimmedKeeps(m, DeleteEach(m, swept, stuck));
    if Accounted(s) && src != dst {
      assert Accounted(m);
    }
  }

  /** An owner that hands its only blob to itself loses it, and the sweep deletes it. */
  lemma SelfTransferLoses(owner: Owner, h: Hash, size: nat, now: int)
    ensures var s := State(size, map[h := Row(size, Write, now, true)], {(owner, h)}, map[], map[], map[]);
      Accounted(s) && Owned(s.owners, h) && h !in TransferOwner(s, owner, owner, [h], {}).catalog
  {
    var s := State(size, map[h := Row(size, Write, now, true)], {(owner, h)}, map[], map[], map[]);
    assert Transferred(s.owners, owner, owner) == {};
    var m := s.(owners := {});
    assert !Owned(m.owners, h) && !Pinned(m, h);
    assert DeleteEach(m, [h], {}) == DeleteEach(DeleteIfUnownedWrite(m, h, {}), [h][1..], {});
    OwnedBy(s.owners, (owner, h));
  }

  lemma {:induction false} SweepIdle(s: State, hs: seq<Hash>, stuck: set<Hash>)
    requires Accounted(s)
    ensures DeleteEach(s, hs, stuck).owners == s.owners
    ensures Accounted(DeleteEach(s, hs, stuck))
    ensures forall h :: Ready(s, h) ==> Ready(DeleteEach(s, hs, stuck), h)
    decreases |hs|
  {
    hide Used;
    if hs != [] {
      var t := DeleteIfUnownedWrite(s, hs[0], stuck);
      assert t.owners == s.owners by { DeleteIfUnownedWriteTrims(s, hs[0], stuck); }
      assert t.leases == s.leases;
      assert forall h :: Ready(t, h) <==> Ready(s, h);
      assert forall h :: Ready(t, h) ==> t.catalog[h] == s.catalog[h];
      SweepIdle(t, hs[1..], stuck);
    }
  }

  // ---- Routes ----

  lemma CommitRouteKeeps(s: State, route: string, parts: seq<Part>, upload: Owner, hashes: seq<Hash>, stuck: set<Hash>)
    requires Valid(s) && OwnedList(s, upload, hashes)
    ensures Valid(CommitRoute(s, route, parts, upload, hashes, stuck).0)
  {
    var t := CommitRoute(s, route, parts, upload, hashes, stuck).0;
    ReleaseOwnerKeeps(s, upload, hashes, stuck);
    hide ReleaseOwner;
    if !(route in s.routes && s.routes[route] != []) && t != s {
      forall p | p in t.owners ensures Ready(t, p.1) {
        if p in RouteRows(route, parts) {
          var i :| 0 <= i < |parts| && p == (RouteOwner(route), parts[i].hash);
          assert (upload, parts[i].hash) in s.owners;
        }
      }
      assert ReadyBytes(t) == ReadyBytes(s);
    }
  }

  /** Committing a new route leaves no written blob behind exactly when each write blob that only
      the upload owns is a component, or is being read. */
  lemma CommitRouteAccountedIff(s: State, route: string, parts: seq<Part>, upload: Owner, hashes: seq<Hash>, stuck: set<Hash>)
    requires Accounted(s) && upload != RouteOwner(route)
    requires route !in s.routes && forall i :: 0 <= i < |parts| ==> (upload, parts[i].hash) in s.owners
    ensures Accounted(CommitRoute(s, route, parts, upload, hashes, stuck).0) <==> NothingLeftOver(s, parts, upload)
  {
    var t := CommitRoute(s, route, parts, upload, hashes, stuck).0;
    assert t == s.(routes := s.routes[route := parts], owners := Disowned(s.owners + RouteRows(route, parts), upload));
    hide CommitRoute;
    forall h | Ready(s, h) && s.catalog[h].origin == Write
      ensures Owned(t.owners, h) <==> OtherOwner(s, h, upload) || IsPart(parts, h)
    {
      if Owned(t.owners, h) {
        var p :| p in t.owners && p.1 == h;
        if p in s.owners {
          assert p == (p.0, h);
        } else {
          var i :| 0 <= i < |parts| && p == (RouteOwner(route), parts[i].hash);
        }
      }
      if OtherOwner(s, h, upload) {
        var o :| o != upload && (o, h) in s.owners;
        assert (o, h) in t.owners;
      }
      if IsPart(parts, h) {
        var i :| 0 <= i < |parts| && parts[i].hash == h;
        assert (RouteOwner(route), h) in t.owners;
      }
    }
    if NothingLeftOver(s, parts, upload) {
      forall h | Ready(t, h) && t.catalog[h].origin == Write ensures Owned(t.owners, h) || h in t.leases {
        if !OtherOwner(s, h, upload) && h !in s.leases {
          var p :| p in s.owners && p.1 == h;
          assert p == (upload, h);
        }
      }
    }
  }

  /** An upload that wrote a blob besides its one component: committing the route leaves the other
      blob ready, with neither owner nor reader. */
  lemma CommitLeavesBlob(upload: Owner, route: string, a: Hash, b: Hash, now: int)
    requires a != b && upload != RouteOwner(route)
    ensures var row := Row(1, Write, now, true);
      var s := State(2, map[a := row, b := row], {(upload, a), (upload, b)}, map[], map[], map[]);
      var (t, ok) := CommitRoute(s, route, [Part(a, 1)], upload, [a, b], {});
      Accounted(s) && ok && Ready(t, b) && !Owned(t.owners, b) && b !in t.leases && !Accounted(t)
  {
    var row := Row(1, Write, now, true);
    var s := State(2, map[a := row, b := row], {(upload, a), (upload, b)}, map[], map[], map[]);
    OwnedBy(s.owners, (upload, a));
    OwnedBy(s.owners, (upload, b));
    assert s.catalog.Keys == {a, b};
    var t := CommitRoute(s, route, [Part(a, 1)], upload, [a, b], {}).0;
    assert forall p :: p in t.owners ==> p == (RouteOwner(route), a);
  }

  // ---- Restarts ----

  lemma RestartValid(s: State)
    requires Valid(s)
    ensures Valid(Restart(s)) && (RoutesHeld(s) ==> RoutesHeld(Restart(s)))
  {
    var none: map<Token, nat> := map[];
    SumEmpty(none);
    assert ReadyBytes(Restart(s)) == ReadyBytes(s);
  }

  /** A restart leaves no lost write blob exactly when every ready one has an owner: one that only a
      reader held stays until the sweep of some transfer passes it. */
  lemma RestartAccountedIff(s: State)
    requires Accounted(s)
    ensures Accounted(Restart(s)) <==> forall h :: Ready(s, h) && s.catalog[h].origin == Write && h in s.leases ==> Owned(s.owners, h)
  {
    forall h ensures Ready(Restart(s), h) <==> Ready(s, h) {
    }
  }

  /** A blob whose owner lets go of it while it is read: the restart leaves it ready, with neither
      owner nor reader. */
  lemma RestartLoses(owner: Owner, h: Hash, size: nat, now: int)
    ensures var s := State(size, map[h := Row(size, Write, now, true)], {(owner, h)}, map[], map[h := 1], map[]);
      var t := ReleaseOwnerOf(s, owner, h, {}); var u := Restart(t);
      && Accounted(s) && Accounted(t) && !Accounted(u)
      && Ready(u, h) && !Owned(u.owners, h) && h !in u.leases
  {
    var s := State(size, map[h := Row(size, Write, now, true)], {(owner, h)}, map[], map[h := 1], map[]);
    assert (owner, h) in s.owners;
    assert s.owners - {(owner, h)} == {};
    var u := Restart(ReleaseOwnerOf(s, owner, h, {}));
    assert Ready(u, h) && !Owned(u.owners, h);
  }

  ghost predicate OtherOwner(s: State, h: Hash, owner: Owner) {
    exists o :: o != owner && (o, h) in s.owners
  }

  predicate IsPart(parts: seq<Part>, h: Hash) {
    exists i :: 0 <= i < |parts| && parts[i].hash == h
  }

  /** The upload owns no write blob alone that is not a component or being read. */
  ghost predicate NothingLeftOver(s: State, parts: seq<Part>, upload: Owner) {
    forall h :: (upload, h) in s.owners && Ready(s, h) && s.catalog[h].origin == Write ==>
      OtherOwner(s, h, upload) || IsPart(parts, h) || h in s.leases
  }

  // ---- Admission ----

  /** A live reservation covers what its admission adds. */
  lemma PromoteKeeps(s: State, token: Token, h: Hash, size: nat, origin: Origin, owner: Option<Owner>, now: int)
    requires Valid(s) && token in s.reservations && size <= s.reservations[token]
    ensures Valid(Promote(s, token, h, size, origin, owner, now).0)
    ensures RoutesHeld(s) ==> RoutesHeld(Promote(s, token, h, size, origin, owner, now).0)
    ensures Accounted(s) && (origin == Write ==> owner.Some?) ==> Accounted(Promote(s, token, h, size, origin, owner, now).0)
  {
    var (t, ok) := Promote(s, token, h, size, origin, owner, now);
    if ok {
      PromoteUsed(s, token, h, size, origin, owner, now);
      hide Used;
      assert forall g :: Ready(s, g) ==> Ready(t, g);
      if Accounted(s) && (origin == Write ==> owner.Some?) {
        forall g | Ready(t, g) && t.catalog[g].origin == Write ensures Owned(t.owners, g) || g in t.leases {
          if g == h {
            OwnedBy(t.owners, (owner.value, h));
          } else {
            assert Ready(s, g) && s.catalog[g].origin == Write;
            if Owned(s.owners, g) {
              var p :| p in s.owners && p.1 == g;
              OwnedBy(t.owners, p);
            }
          }
        }
      }
    }
  }

  lemma PromoteUsed(s: State, token: Token, h: Hash, size: nat, origin: Origin, owner: Option<Owner>, now: int)
    requires token in s.reservations && size <= s.reservations[token]
    requires h in s.catalog ==> s.catalog[h].size == size
    ensures Used(Promote(s, token, h, size, origin, owner, now).0) <= Used(s)
  {
    var t := Promote(s, token, h, size, origin, owner, now).0;
    SumRemove(s.reservations, token);
    assert ReadySizes(t.catalog) == ReadySizes(s.catalog)[h := size];
    if h in ReadySizes(s.catalog) {
      SumReplace(ReadySizes(s.catalog), h, size);
    } else {
      SumInsert(ReadySizes(s.catalog), h, size);
    }
  }

  // ---- Leases ----

  lemma LookupKeeps(s: State, h: Hash, now: int)
    requires Valid(s)
    ensures Valid(Lookup(s, h, now).0)
    ensures RoutesHeld(s) ==> RoutesHeld(Lookup(s, h, now).0)
    ensures Accounted(s) ==> Accounted(Lookup(s, h, now).0)
  {
    var t := Lookup(s, h, now).0;
    assert ReadySizes(t.catalog) == ReadySizes(s.catalog);
    hide ReadySizes, Owned;
  }

  lemma ReleaseLeaseKeeps(s: State, h: Hash, stuck: set<Hash>)
    requires Valid(s)
    ensures Valid(ReleaseLease(s, h, stuck))
    ensures RoutesHeld(s) ==> RoutesHeld(ReleaseLease(s, h, stuck))
    ensures Accounted(s) ==> Accounted(ReleaseLease(s, h, stuck))
  {
    var m := DropLease(s, h);
    assert Valid(m) by { assert ReadyBytes(m) == ReadyBytes(s); }
    var t := ReleaseLease(s, h, stuck);
    DeleteIfUnownedWriteTrims(m, h, stuck);
    SettledAfterDelete(m, h, stuck);
    TrimmedKeeps(m, t);
  }
}
