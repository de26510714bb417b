/**
 SSDFileStore (transfer_queue/storage/simple_storage.py): one file per value, under a name never used before. Any write
 may fail; which ones do is an arbitrary function of the write's number.
 */
module SsdFiles {
  import opened Prelude

  type Payload = seq<bv8>

  type Files = map<nat, Payload>

  /** What a value is turned into for a file; `kind` stands for codec, dtype and shape. */
  datatype Encoded = Encoded(payload: Payload, kind: string)

  /** The name of a file, and what is needed to read it back. */
  datatype Ref = Ref(path: nat, size: nat, kind: string)

  // ---------------------------------------------------------------- counting files

  /** The number of files with a name below n. */
  ghost function Count(files: Files, n: nat): nat {
    if n == 0 then 0 else Count(files, n - 1) + if n - 1 in files then 1 else 0
  }

  ghost function Bytes(files: Files, n: nat): nat {
    if n == 0 then 0 else Bytes(files, n - 1) + if n - 1 in files then |files[n - 1]| else 0
  }

  lemma {:induction false} AddFile(files: Files, p: nat, payload: Payload, n: nat)
    requires p !in files
    ensures Count(files[p := payload], n) == Count(files, n) + if p < n then 1 else 0
    ensures Bytes(files[p := payload], n) == Bytes(files, n) + if p < n then |payload| else 0
  {
    if n > 0 { AddFile(files, p, payload, n - 1); }
  }

  lemma {:induction false} RemoveFile(files: Files, p: nat, n: nat)
    requires p in files
    ensures Count(files - {p}, n) == Count(files, n) - if p < n then 1 else 0
    ensures Bytes(files - {p}, n) == Bytes(files, n) - if p < n then |files[p]| else 0
  {
    if n > 0 { RemoveFile(files, p, n - 1); }
  }

  lemma {:induction false} NoFileAbove(files: Files, m: nat, n: nat)
    requires m <= n && forall p :: p in files ==> p < m
    ensures Count(files, n) == Count(files, m) && Bytes(files, n) == Bytes(files, m)
  {
    if m < n { NoFileAbove(files, m, n - 1); }
  }

  function Paths(refs: seq<Ref>): set<nat> {
    set i | 0 <= i < |refs| :: refs[i].path
  }

  ghost predicate DistinctPaths(refs: seq<Ref>) {
    forall i, j :: 0 <= i < j < |refs| ==> refs[i].path != refs[j].path
  }

  /** The file is there and has the size that the reference says. */
  ghost predicate Stored(files: Files, ref: Ref) {
    ref.path in files && |files[ref.path]| == ref.size
  }

  ghost predicate AllStored(files: Files, refs: seq<Ref>) {
    forall i :: 0 <= i < |refs| ==> Stored(files, refs[i])
  }

  function TotalSize(refs: seq<Ref>): nat {
    if refs == [] then 0 else TotalSize(refs[..|refs| - 1]) + refs[|refs| - 1].size
  }

  lemma {:induction false} TotalSizeConcat(a: seq<Ref>, b: seq<Ref>)
    ensures TotalSize(a + b) == TotalSize(a) + TotalSize(b)
  {
    if b == [] {
      assert a + b == a;
    } else {
      assert (a + b)[..|a + b| - 1] == a + b[..|b| - 1];
      TotalSizeConcat(a, b[..|b| - 1]);
    }
  }

  /** Deleting different files takes away their number and their sizes. */
  lemma {:induction false} RemoveFiles(files: Files, refs: seq<Ref>, n: nat)
    requires DistinctPaths(refs) && AllStored(files, refs) && forall p :: p in files ==> p < n
    ensures Count(files - Paths(refs), n) == Count(files, n) - |refs|
    ensures Bytes(files - Paths(refs), n) == Bytes(files, n) - TotalSize(refs)
  {
    if refs == [] {
      assert files - Paths(refs) == files;
    } else {
      var k := |refs| - 1;
      var less, last := refs[..k], refs[k];
      assert AllStored(files, less);
      RemoveFiles(files, less, n);
      assert Stored(files, last) && last.path !in Paths(less);
      RemoveFile(files - Paths(less), last.path, n);
      assert Paths(refs) == Paths(less) + {last.path};
      assert files - Paths(refs) == (files - Paths(less)) - {last.path};
    }
  }

  // ---------------------------------------------------------------- the store

  /** References to new files with these contents. */
  ghost predicate Written(files: Files, first: nat, refs: seq<Ref>, encoded: seq<Encoded>) {
    && |refs| == |encoded| && DistinctPaths(refs)
    && forall i :: 0 <= i < |refs| ==> WrittenOne(files, first, refs[i], encoded[i])
  }

  ghost predicate WrittenOne(files: Files, first: nat, ref: Ref, encoded: Encoded) {
    && first <= ref.path && ref.path in files && files[ref.path] == encoded.payload
    && ref.size == |encoded.payload| && ref.kind == encoded.kind
  }

  class SSDFileStore {
    const fails: nat -> bool
    var files: Files
    /** The next fresh name. */
    var next: nat

    ghost predicate Valid()
      reads this
    {
      forall p :: p in files ==> p < next
    }

    constructor (fails: nat -> bool)
      ensures Valid() && files == map[] && this.fails == fails
    {
      this.fails, files, next := fails, map[], 0;
    }

    /** A failed write leaves no file. */
    method WriteValueFile(encoded: Encoded) returns (r: Option<Ref>)
      requires Valid()
      modifies this
      ensures Valid() && next == old(next) + 1
      ensures r.None? <==> fails(old(next))
      ensures r.None? ==> files == old(files)
      ensures r.Some? ==> r.value == Ref(old(next), |encoded.payload|, encoded.kind) && files == old(files)[old(next) := encoded.payload]
    {
      var path := next;
      next := next + 1;
      if fails(path) {
        return None;
      }
      files := files[path := encoded.payload];
      r := Some(Ref(path, |encoded.payload|, encoded.kind));
    }

    method Unlink(ref: Ref)
      requires Valid()
      modifies this`files
      ensures Valid() && files == old(files) - {ref.path}
    {
      files := files - {ref.path};
    }

    method UnlinkAll(refs: seq<Ref>)
      requires Valid()
      modifies this`files
      ensures Valid() && files == old(files) - Paths(refs)
    {
      for i := 0 to |refs|
        invariant Valid() && files == old(files) - set j | 0 <= j < i :: refs[j].path
      {
        Unlink(refs[i]);
      }
    }

    /** Every write is tried; if one fails, the files of the others are deleted again. */
    method WriteValues(encoded: seq<Encoded>) returns (r: Option<seq<Ref>>)
      requires Valid()
      modifies this
      ensures Valid() && next == old(next) + |encoded|
      ensures r.None? ==> files == old(files)
      ensures r.None? <==> exists p :: old(next) <= p < next && fails(p)
      ensures r.Some? ==> Written(files, old(next), r.value, encoded)
      ensures r.Some? ==> files.Keys == old(files).Keys + Paths(r.value) && files - Paths(r.value) == old(files)
    {
      var refs: seq<Ref> := [];
      var failed := false;
      ghost var kept: seq<Encoded> := [];
      for i := 0 to |encoded|
        invariant Valid() && next == old(next) + i
        invariant failed <==> exists p :: old(next) <= p < next && fails(p)
        invariant !failed ==> kept == encoded[..i]
        invariant Written(files, old(next), refs, kept) && forall j :: 0 <= j < |refs| ==> refs[j].path < next
        invariant files.Keys == old(files).Keys + Paths(refs) && files - Paths(refs) == old(files)
      {
        ghost var was := files;
        var ref := WriteValueFile(encoded[i]);
        if ref.None? {
          failed := true;
        } else {
          MoreWritten(was, files, old(next), refs, kept, ref.value, encoded[i]);
          MoreFiles(old(files), was, refs, ref.value, encoded[i].payload);
          refs := refs + [ref.value];
          kept := kept + [encoded[i]];
        }
      }
      if failed {
        UnlinkAll(refs);
        return None;
      }
      r := Some(refs);
    }

    /** Copies a checkpoint's file in; a missing file or one of the wrong size is an error. */
    method ImportFile(blobs: Files, source: Ref) returns (r: Option<Ref>)
      requires Valid()
      modifies this
      ensures Valid() && next == old(next) + 1
      ensures r.None? <==> fails(old(next)) || !Stored(blobs, source)
      ensures r.None? ==> files == old(files)
      ensures r.Some? ==> r.value == Ref(old(next), source.size, source.kind) && files == old(files)[old(next) := blobs[source.path]]
    {
      var path := next;
      next := next + 1;
      if fails(path) || source.path !in blobs || |blobs[source.path]| != source.size {
        return None;
      }
      files := files[path := blobs[source.path]];
      r := Some(Ref(path, source.size, source.kind));
    }

    /** A file of the wrong size is a read error. */
    method ReadValueFile(ref: Ref) returns (r: Option<Payload>)
      requires Valid()
      ensures r == if Stored(files, ref) then Some(files[ref.path]) else None
    {
      if ref.path !in files || |files[ref.path]| != ref.size {
        return None;
      }
      r := Some(files[ref.path]);
    }
  }

  lemma MoreWritten(was: Files, files: Files, first: nat, refs: seq<Ref>, encoded: seq<Encoded>, ref: Ref, e: Encoded)
    requires Written(was, first, refs, encoded) && first <= ref.path && ref.path !in was
    requires files == was[ref.path := e.payload] && ref.size == |e.payload| && ref.kind == e.kind
    ensures Written(files, first, refs + [ref], encoded + [e])
  {
    var more, all := refs + [ref], encoded + [e];
    forall i | 0 <= i < |more| ensures WrittenOne(files, first, more[i], all[i]) {
      assert i < |refs| ==> WrittenOne(was, first, refs[i], encoded[i]);
    }
    forall i, j | 0 <= i < j < |more| ensures more[i].path != more[j].path {
      assert WrittenOne(was, first, refs[i], encoded[i]);
    }
  }

  lemma MoreFiles(before: Files, was: Files, refs: seq<Ref>, ref: Ref, payload: Payload)
    requires was.Keys == before.Keys + Paths(refs) && was - Paths(refs) == before && ref.path !in was
    ensures Paths(refs + [ref]) == Paths(refs) + {ref.path}
    ensures was[ref.path := payload].Keys == before.Keys + Paths(refs + [ref])
    ensures was[ref.path := payload] - Paths(refs + [ref]) == before
  {
    var more := refs + [ref];
    assert forall i :: 0 <= i < |refs| ==> more[i] == refs[i];
    assert more[|refs|] == ref;
    forall p ensures p in Paths(more) <==> p in Paths(refs) || p == ref.path {
      if p in Paths(refs) {
        var i :| 0 <= i < |refs| && refs[i].path == p;
        assert more[i].path == p;
      }
    }
  }
}
