/**
 The packing loop of `packages/gateway-rust/tooling/generate-scheduler-tzdata.py`: files of equal
 content are stored once in one blob, and an index says where each one lies. The digest is any
 function of the bytes.
 */
module Packer {
  import opened Prelude

  type Bytes = seq<bv8>

  datatype Zone = Zone(name: string, data: Bytes)

  datatype Slot = Slot(start: nat, size: nat)

  datatype IndexEntry = IndexEntry(name: string, slot: Slot)

  datatype Packed = Packed(blob: Bytes, chunks: map<string, Slot>, index: seq<IndexEntry>)

  datatype PackError = NotTZif(name: string) | WrongCount

  const MAGIC: Bytes := [0x54, 0x5A, 0x69, 0x66]
  const ZONES: nat := 597

  function Slice(blob: Bytes, slot: Slot): Bytes
    requires slot.start + slot.size <= |blob|
  {
    blob[slot.start..slot.start + slot.size]
  }

  // ----- what the loop builds -----

  /** The files whose digest no earlier one has, in order. */
  function Firsts(files: seq<Zone>, digest: Bytes -> string): seq<Zone> {
    if files == [] then []
    else
      var front, f := files[..|files| - 1], files[|files| - 1];
      Firsts(front, digest) + if Seen(front, digest(f.data), digest) then [] else [f]
  }

  predicate Seen(files: seq<Zone>, d: string, digest: Bytes -> string) {
    exists f :: f in files && digest(f.data) == d
  }

  function Concat(files: seq<Zone>): Bytes {
    if files == [] then [] else Concat(files[..|files| - 1]) + files[|files| - 1].data
  }

  predicate AllTZif(files: seq<Zone>) {
    forall f :: f in files ==> MAGIC <= f.data
  }

  ghost predicate DigestsDiffer(u: seq<Zone>, digest: Bytes -> string) {
    forall j, k :: 0 <= j < k < |u| ==> digest(u[j].data) != digest(u[k].data)
  }

  /** The blob is the stored files one after another, and each chunk is the place of one of them. */
  ghost predicate Layout(p: Packed, u: seq<Zone>, digest: Bytes -> string) {
    && p.blob == Concat(u) && DigestsDiffer(u, digest) && Keyed(p.chunks, u, digest)
    && forall k :: 0 <= k < |u| ==> PlacedAt(p.chunks, u, k, digest)
  }

  ghost predicate Keyed(chunks: map<string, Slot>, u: seq<Zone>, digest: Bytes -> string) {
    forall d :: d in chunks <==> Seen(u, d, digest)
  }

  predicate PlacedAt(chunks: map<string, Slot>, u: seq<Zone>, k: nat, digest: Bytes -> string)
    requires k < |u|
  {
    digest(u[k].data) in chunks && chunks[digest(u[k].data)] == Slot(|Concat(u[..k])|, |u[k].data|)
  }

  /** Each file has an entry with the chunk of its digest. */
  ghost predicate Indexed(p: Packed, files: seq<Zone>, digest: Bytes -> string) {
    && |p.index| == |files|
    && forall i :: 0 <= i < |files| ==>
         && digest(files[i].data) in p.chunks
         && p.index[i] == IndexEntry(files[i].name, p.chunks[digest(files[i].data)])
  }

  ghost predicate Packs(p: Packed, files: seq<Zone>, digest: Bytes -> string) {
    Layout(p, Firsts(files, digest), digest) && Indexed(p, files, digest)
  }

  lemma {:induction false} FirstsMean(files: seq<Zone>, digest: Bytes -> string)
    ensures forall d :: Seen(Firsts(files, digest), d, digest) <==> Seen(files, d, digest)
    ensures forall f :: f in Firsts(files, digest) ==> f in files
    ensures DigestsDiffer(Firsts(files, digest), digest)
  {
    if files != [] {
      var front, last := files[..|files| - 1], files[|files| - 1];
      FirstsMean(front, digest);
      assert files == front + [last];
      var u := Firsts(front, digest);
      assert last in files && (forall f :: f in files <==> f in front || f == last);
      forall d ensures Seen(Firsts(files, digest), d, digest) <==> Seen(files, d, digest) {
        assert Seen(files, d, digest) <==> Seen(front, d, digest) || digest(last.data) == d by {
          if f :| f in front && digest(f.data) == d {
            assert f in files;
          }
        }
        if !Seen(front, digest(last.data), digest) {
          assert Firsts(files, digest) == u + [last];
          SeenSnoc(u, last, d, digest);
        }
      }
      if !Seen(front, digest(last.data), digest) {
        forall k | 0 <= k < |u| ensures digest(u[k].data) != digest(last.data) {
          assert u[k] in u;
        }
      }
    }
  }

  lemma SeenSnoc(u: seq<Zone>, f: Zone, d: string, digest: Bytes -> string)
    ensures Seen(u + [f], d, digest) <==> Seen(u, d, digest) || digest(f.data) == d
  {
    assert f in u + [f];
    if g :| g in u && digest(g.data) == d {
      assert g in u + [f];
    }
  }

  // ----- the loop -----

  function Add(p: Packed, d: string, data: Bytes): Packed {
    p.(blob := p.blob + data, chunks := p.chunks[d := Slot(|p.blob|, |data|)])
  }

  lemma ConcatSnoc(u: seq<Zone>, f: Zone)
    ensures Concat(u + [f]) == Concat(u) + f.data
  {
    assert (u + [f])[..|u|] == u;
  }

  lemma SnocDiffers(u: seq<Zone>, f: Zone, digest: Bytes -> string)
    requires DigestsDiffer(u, digest) && !Seen(u, digest(f.data), digest)
    ensures DigestsDiffer(u + [f], digest)
    ensures forall k :: 0 <= k < |u| ==> digest(u[k].data) != digest(f.data)
  {
    assert forall k :: 0 <= k < |u| ==> u[k] in u;
  }

  lemma KeysGrow(chunks: map<string, Slot>, u: seq<Zone>, f: Zone, slot: Slot, digest: Bytes -> string)
    requires Keyed(chunks, u, digest)
    ensures Keyed(chunks[digest(f.data) := slot], u + [f], digest)
  {
    forall d ensures Seen(u + [f], d, digest) <==> Seen(u, d, digest) || d == digest(f.data) {
      SeenSnoc(u, f, d, digest);
    }
  }

  lemma PlacesGrow(p: Packed, u: seq<Zone>, f: Zone, digest: Bytes -> string, k: nat)
    requires p.blob == Concat(u) && k <= |u|
    requires k < |u| ==> PlacedAt(p.chunks, u, k, digest) && digest(u[k].data) != digest(f.data)
    ensures PlacedAt(Add(p, digest(f.data), f.data).chunks, u + [f], k, digest)
  {
    hide Concat;
    assert (u + [f])[..k] == u[..k];
    assert u[..|u|] == u;
  }

  lemma LayoutGrows(p: Packed, u: seq<Zone>, f: Zone, digest: Bytes -> string)
    requires Layout(p, u, digest) && !Seen(u, digest(f.data), digest)
    ensures Layout(Add(p, digest(f.data), f.data), u + [f], digest)
  {
    hide Concat, Seen, DigestsDiffer, Keyed, PlacedAt;
    ConcatSnoc(u, f);
    SnocDiffers(u, f, digest);
    KeysGrow(p.chunks, u, f, Slot(|p.blob|, |f.data|), digest);
    forall k | 0 <= k < |u + [f]| ensures PlacedAt(Add(p, digest(f.data), f.data).chunks, u + [f], k, digest) {
      PlacesGrow(p, u, f, digest, k);
    }
  }

  lemma FirstsSnoc(front: seq<Zone>, f: Zone, digest: Bytes -> string)
    ensures Firsts(front + [f], digest)
            == Firsts(front, digest) + if Seen(front, digest(f.data), digest) then [] else [f]
  {
    assert (front + [f])[..|front|] == front;
  }

  lemma ChunkSeen(p: Packed, front: seq<Zone>, d: string, digest: Bytes -> string)
    requires Packs(p, front, digest)
    ensures d in p.chunks <==> Seen(front, d, digest)
    ensures d in p.chunks <==> Seen(Firsts(front, digest), d, digest)
  {
    hide Firsts, Concat, Seen, DigestsDiffer, PlacedAt, Indexed;
    FirstsMean(front, digest);
  }

  /** One file: what the loop body does with it keeps the packing. */
  lemma PackStep(p: Packed, q: Packed, front: seq<Zone>, f: Zone, digest: Bytes -> string)
    requires Packs(p, front, digest)
    requires var d := digest(f.data);
             var stored := if d in p.chunks then p else Add(p, d, f.data);
             d in stored.chunks && q == stored.(index := p.index + [IndexEntry(f.name, stored.chunks[d])])
    ensures Packs(q, front + [f], digest)
  {
    hide Firsts, Concat, Seen, DigestsDiffer, PlacedAt, Keyed;
    var d, u := digest(f.data), Firsts(front, digest);
    ChunkSeen(p, front, d, digest);
    FirstsSnoc(front, f, digest);
    if d !in p.chunks {
      LayoutGrows(p, u, f, digest);
    } else {
      assert u + [] == u;
    }
    hide Layout, Indexed;
    StillLaidOut(if d in p.chunks then p else Add(p, d, f.data), q, Firsts(front + [f], digest), digest);
    StillIndexed(p, q, front, f, digest);
  }

  lemma StillLaidOut(p: Packed, q: Packed, u: seq<Zone>, digest: Bytes -> string)
    requires Layout(p, u, digest) && q.blob == p.blob && q.chunks == p.chunks
    ensures Layout(q, u, digest)
  {
  }

  method Pack(files: seq<Zone>, digest: Bytes -> string) returns (r: Result<Packed, PackError>)
    ensures AllTZif(files) && |files| == ZONES <==> r.Ok?
    ensures r.Ok? ==> Packs(r.value, files, digest)
    ensures r == Err(WrongCount) ==> AllTZif(files)
    ensures r.Err? && r.error.NotTZif? ==> FirstBad(files, r.error.name)
  {
    hide Packs;
    var blob: Bytes := [];
    var chunks: map<string, Slot> := map[];
    var index: seq<IndexEntry> := [];
    PackNothing(digest);
    for i := 0 to |files|
      invariant AllTZif(files[..i])
      invariant Packs(Packed(blob, chunks, index), files[..i], digest)
    {
      var name, data := files[i].name, files[i].data;
      ghost var before := Packed(blob, chunks, index);
      assert files[..i + 1] == files[..i] + [files[i]];
      if !(MAGIC <= data) {
        NotAll(files, i);
        return Err(NotTZif(name));
      }
      var d := digest(data);
      if d !in chunks {
        chunks := chunks[d := Slot(|blob|, |data|)];
        blob := blob + data;
      }
      index := index + [IndexEntry(name, chunks[d])];
      PackStep(before, Packed(blob, chunks, index), files[..i], files[i], digest);
    }
    assert files[..|files|] == files;
    IndexLength(Packed(blob, chunks, index), files, digest);
    if |index| != ZONES {
      return Err(WrongCount);
    }
    r := Ok(Packed(blob, chunks, index));
  }

  /** The first file that is no TZif file has this name. */
  ghost predicate FirstBad(files: seq<Zone>, name: string) {
    exists i :: 0 <= i < |files| && files[i].name == name && !(MAGIC <= files[i].data) && AllTZif(files[..i])
  }

  lemma NotAll(files: seq<Zone>, i: nat)
    requires i < |files| && !(MAGIC <= files[i].data)
    ensures !AllTZif(files)
  {
    assert files[i] in files;
  }

  lemma PackNothing(digest: Bytes -> string)
    ensures Packs(Packed([], map[], []), [], digest)
  {
  }

  lemma IndexLength(p: Packed, files: seq<Zone>, digest: Bytes -> string)
    requires Packs(p, files, digest)
    ensures |p.index| == |files|
  {
  }

  lemma StillIndexed(p: Packed, q: Packed, front: seq<Zone>, f: Zone, digest: Bytes -> string)
    requires Indexed(p, front, digest)
    requires digest(f.data) in q.chunks && forall d :: d in p.chunks ==> d in q.chunks && q.chunks[d] == p.chunks[d]
    requires q.index == p.index + [IndexEntry(f.name, q.chunks[digest(f.data)])]
    ensures Indexed(q, front + [f], digest)
  {
  }

  // ----- what the index is worth -----

  ghost predicate CollisionFree(files: seq<Zone>, digest: Bytes -> string) {
    forall f, g :: f in files && g in files && digest(f.data) == digest(g.data) ==> f.data == g.data
  }

  lemma {:induction false} ConcatParts(u: seq<Zone>, k: nat)
    requires k < |u|
    ensures |Concat(u[..k])| + |u[k].data| == |Concat(u[..k + 1])| <= |Concat(u)|
    ensures Slice(Concat(u), Slot(|Concat(u[..k])|, |u[k].data|)) == u[k].data
  {
    assert u[..k + 1][..k] == u[..k];
    if k == |u| - 1 {
      assert u[..k + 1] == u;
    } else {
      var front := u[..|u| - 1];
      ConcatParts(front, k);
      assert front[..k] == u[..k] && front[..k + 1] == u[..k + 1];
    }
  }

  /** Every entry reads back the stored file with the digest of its own. */
  lemma EntryReads(p: Packed, files: seq<Zone>, digest: Bytes -> string, i: nat) returns (k: nat)
    requires Packs(p, files, digest) && i < |files|
    ensures var u := Firsts(files, digest);
            && k < |u| && digest(u[k].data) == digest(files[i].data)
            && p.index[i].slot.start + p.index[i].slot.size <= |p.blob|
            && Slice(p.blob, p.index[i].slot) == u[k].data
  {
    hide Concat, Firsts;
    var u, d := Firsts(files, digest), digest(files[i].data);
    FirstsMean(files, digest);
    assert Seen(u, d, digest);
    var f :| f in u && digest(f.data) == d;
    k :| 0 <= k < |u| && u[k] == f;
    ConcatParts(u, k);
    assert PlacedAt(p.chunks, u, k, digest);
  }

  ghost predicate ReadsBack(p: Packed, files: seq<Zone>) {
    forall i :: 0 <= i < |files| ==> ReadsAt(p, files, i)
  }

  predicate ReadsAt(p: Packed, files: seq<Zone>, i: nat) {
    && i < |files| && i < |p.index|
    && p.index[i].slot.start + p.index[i].slot.size <= |p.blob|
    && p.index[i].name == files[i].name && Slice(p.blob, p.index[i].slot) == files[i].data
  }

  /** All entries read back their files exactly when no two files share a digest but not their bytes. */
  lemma ReadsBackIff(p: Packed, files: seq<Zone>, digest: Bytes -> string)
    requires Packs(p, files, digest)
    ensures ReadsBack(p, files) <==> CollisionFree(files, digest)
  {
    hide Layout, Firsts;
    FirstsMean(files, digest);
    if CollisionFree(files, digest) {
      forall i | 0 <= i < |files| ensures ReadsAt(p, files, i) {
        var k := EntryReads(p, files, digest, i);
        assert files[i] in files && Firsts(files, digest)[k] in Firsts(files, digest);
      }
    }
    if ReadsBack(p, files) {
      forall f, g | f in files && g in files && digest(f.data) == digest(g.data) ensures f.data == g.data {
        var i :| 0 <= i < |files| && files[i] == f;
        var j :| 0 <= j < |files| && files[j] == g;
        assert ReadsAt(p, files, i) && ReadsAt(p, files, j);
      }
    }
  }

  /** What is stored is every content once. */
  lemma StoredOnce(p: Packed, files: seq<Zone>, digest: Bytes -> string)
    requires Packs(p, files, digest) && CollisionFree(files, digest)
    ensures var u := Firsts(files, digest);
            && p.blob == Concat(u)
            && (forall j, k :: 0 <= j < k < |u| ==> u[j].data != u[k].data)
            && forall f :: f in files ==> exists k :: 0 <= k < |u| && u[k].data == f.data
  {
    hide Firsts, Concat;
    var u := Firsts(files, digest);
    FirstsMean(files, digest);
    forall f | f in files ensures exists k :: 0 <= k < |u| && u[k].data == f.data {
      assert Seen(files, digest(f.data), digest);
      assert Seen(u, digest(f.data), digest);
      var g :| g in u && digest(g.data) == digest(f.data);
      var k :| 0 <= k < |u| && u[k] == g;
      assert g in files;
    }
  }

  predicate Covers(p: Packed, d: string, at: nat) {
    d in p.chunks && p.chunks[d].start <= at < p.chunks[d].start + p.chunks[d].size
  }

  lemma {:induction false} PieceAt(u: seq<Zone>, at: nat) returns (k: nat)
    requires at < |Concat(u)|
    ensures k < |u| && |Concat(u[..k])| <= at < |Concat(u[..k])| + |u[k].data|
  {
    var front := u[..|u| - 1];
    if at < |Concat(front)| {
      k := PieceAt(front, at);
      assert front[..k] == u[..k];
    } else {
      k := |u| - 1;
    }
  }

  lemma {:induction false} PiecesInOrder(u: seq<Zone>, j: nat, k: nat)
    requires j < k <= |u|
    ensures |Concat(u[..j])| + |u[j].data| <= |Concat(u[..k])|
  {
    assert u[..k][..k - 1] == u[..k - 1];
    if j < k - 1 {
      PiecesInOrder(u, j, k - 1);
    }
  }

  /** The chunks tile the blob: every byte of it lies in exactly one of them. */
  lemma ChunksTile(p: Packed, files: seq<Zone>, digest: Bytes -> string, at: nat)
    requires Packs(p, files, digest) && at < |p.blob|
    ensures exists d :: Covers(p, d, at)
    ensures forall d, e :: Covers(p, d, at) && Covers(p, e, at) ==> d == e
    ensures forall d :: d in p.chunks ==> p.chunks[d].start + p.chunks[d].size <= |p.blob|
  {
    hide Concat, Firsts;
    var u := Firsts(files, digest);
    var k := PieceAt(u, at);
    assert PlacedAt(p.chunks, u, k, digest);
    assert Covers(p, digest(u[k].data), at);
    forall d | d in p.chunks
      ensures p.chunks[d].start + p.chunks[d].size <= |p.blob|
      ensures Covers(p, d, at) ==> d == digest(u[k].data)
    {
      assert Seen(u, d, digest);
      var f :| f in u && digest(f.data) == d;
      var j :| 0 <= j < |u| && u[j] == f;
      ConcatParts(u, j);
      assert PlacedAt(p.chunks, u, j, digest);
      if j < k {
        PiecesInOrder(u, j, k);
      } else if k < j {
        PiecesInOrder(u, k, j);
      }
    }
  }
}
