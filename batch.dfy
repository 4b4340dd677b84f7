/** What a copy run produces: one outcome per setup file, the two
    accumulator lists built from them (`copied_files` and `errors`), and the
    destination store the successful copies write to. */
module Batch {
  import opened Wrappers
  import opened Listing

  /** A destination path: the folder's name and the file's name in it. */
  type Dest = (string, string)

  /** The single entry one setup file contributes: a copy into `dest`,
      reported as `entry` in `copied_files`, or an error message. */
  datatype Outcome =
    | Copied(dest: Dest, content: Content, entry: string)
    | Failed(entry: string)

  /** `copied_files`: the entries of the successful copies, in order. */
  function Successes(os: seq<Outcome>): (r: seq<string>)
    ensures |r| <= |os|
  {
    if os == [] then []
    else
      var last := os[|os| - 1];
      Successes(os[..|os| - 1]) + (if last.Copied? then [last.entry] else [])
  }

  /** `errors`: the messages of the failed files, in order. */
  function Failures(os: seq<Outcome>): (r: seq<string>)
    ensures |r| <= |os|
  {
    if os == [] then []
    else
      var last := os[|os| - 1];
      Failures(os[..|os| - 1]) + (if last.Failed? then [last.entry] else [])
  }

  /** The store after the copies of `os`, in order, each one overwriting
      whatever its destination held. */
  function Apply(store: map<Dest, Content>, os: seq<Outcome>): (r: map<Dest, Content>)
    ensures store.Keys <= r.Keys
  {
    if os == [] then store
    else
      var last := os[|os| - 1];
      var before := Apply(store, os[..|os| - 1]);
      if last.Copied? then before[last.dest := last.content] else before
  }

  /** One more outcome adds at most one entry to one of the lists and at
      most one write to the store. */
  lemma RunStep(store: map<Dest, Content>, os: seq<Outcome>, o: Outcome)
    ensures Successes(os + [o]) == Successes(os) + (if o.Copied? then [o.entry] else [])
    ensures Failures(os + [o]) == Failures(os) + (if o.Failed? then [o.entry] else [])
    ensures Apply(store, os + [o]) == if o.Copied? then Apply(store, os)[o.dest := o.content] else Apply(store, os)
  {
    assert (os + [o])[..|os|] == os;
  }

  /** Every outcome lands in exactly one of the two lists. */
  lemma {:induction false} EveryFileReported(os: seq<Outcome>)
    ensures |Successes(os)| + |Failures(os)| == |os|
  {
    if os != [] { EveryFileReported(os[..|os| - 1]); }
  }

  /** Both lists keep the input order: a later batch's entries come after an
      earlier batch's. */
  lemma {:induction false} ReportsConcat(a: seq<Outcome>, b: seq<Outcome>)
    ensures Successes(a + b) == Successes(a) + Successes(b)
    ensures Failures(a + b) == Failures(a) + Failures(b)
  {
    if b == [] {
      assert a + b == a;
    } else {
      var init, last := b[..|b| - 1], b[|b| - 1];
      ReportsConcat(a, init);
      assert a + b == (a + init) + [last];
      assert b == init + [last];
      RunStep(map[], a + init, last);
      RunStep(map[], init, last);
    }
  }

  /** The last write to each destination among the copies of `os`. */
  function Writes(os: seq<Outcome>): map<Dest, Content>
  {
    if os == [] then map[]
    else
      var last := os[|os| - 1];
      var before := Writes(os[..|os| - 1]);
      if last.Copied? then before[last.dest := last.content] else before
  }

  /** Running the batch overlays the last write per destination on the old
      store. */
  lemma {:induction false} ApplyOverlays(store: map<Dest, Content>, os: seq<Outcome>)
    ensures Apply(store, os) == store + Writes(os)
  {
    if os == [] {
      assert store + map[] == store;
    } else {
      ApplyOverlays(store, os[..|os| - 1]);
    }
  }

  /** Running the same batch again leaves the store as the first run left
      it: copying overwrites. */
  lemma ApplyIdempotent(store: map<Dest, Content>, os: seq<Outcome>)
    ensures Apply(Apply(store, os), os) == Apply(store, os)
  {
    ApplyOverlays(store, os);
    ApplyOverlays(store + Writes(os), os);
    assert store + Writes(os) + Writes(os) == store + Writes(os);
  }

  /** A destination that no copy of the batch targets keeps its old
      content, or stays absent. */
  lemma {:induction false} ApplyUntouched(store: map<Dest, Content>, os: seq<Outcome>, d: Dest)
    requires forall i :: 0 <= i < |os| && os[i].Copied? ==> os[i].dest != d
    ensures d in Apply(store, os) <==> d in store
    ensures d in store ==> Apply(store, os)[d] == store[d]
  {
    if os != [] {
      ApplyUntouched(store, os[..|os| - 1], d);
    }
  }

  /** A copy that no later copy of the batch overwrites leaves its content
      at its destination. */
  lemma {:induction false} ApplyLastWrite(store: map<Dest, Content>, os: seq<Outcome>, i: nat)
    requires i < |os| && os[i].Copied?
    requires forall j :: i < j < |os| && os[j].Copied? ==> os[j].dest != os[i].dest
    ensures os[i].dest in Apply(store, os)
    ensures Apply(store, os)[os[i].dest] == os[i].content
  {
    if i < |os| - 1 {
      ApplyLastWrite(store, os[..|os| - 1], i);
    }
  }

  /** Two runs agree on their copies: wherever either one copies, both
      produce the same outcome. */
  predicate SameCopies(a: seq<Outcome>, b: seq<Outcome>)
  {
    |a| == |b| && forall i :: 0 <= i < |a| ==> (a[i].Copied? || b[i].Copied?) ==> a[i] == b[i]
  }

  /** Runs that agree on their copies report the same successes, fail the
      same number of files and leave the same store. */
  lemma {:induction false} SameCopiesSameRun(store: map<Dest, Content>, a: seq<Outcome>, b: seq<Outcome>)
    requires SameCopies(a, b)
    ensures Successes(a) == Successes(b)
    ensures |Failures(a)| == |Failures(b)|
    ensures Apply(store, a) == Apply(store, b)
  {
    if a != [] {
      var n := |a|;
      assert SameCopies(a[..n - 1], b[..n - 1]) by {
        forall i | 0 <= i < n - 1 ensures a[..n - 1][i] == a[i] && b[..n - 1][i] == b[i] { }
      }
      SameCopiesSameRun(store, a[..n - 1], b[..n - 1]);
    }
  }

  /** The destination side of the filesystem: the files inside the vehicle
      folders, and the destinations whose copy raises (the text of the
      raised error). */
  class SetupStore {
    var files: map<Dest, Content>
    const faults: map<Dest, string>

    constructor (files: map<Dest, Content>, faults: map<Dest, string>)
      ensures this.files == files && this.faults == faults
    {
      this.files := files;
      this.faults := faults;
    }

    /** `shutil.copy2(source, folder / name)`: overwrite the destination
        with the source's bytes, or raise the destination's fault and
        change nothing. */
    method Copy(dest: Dest, content: Content) returns (err: Option<string>)
      modifies this
      ensures err == if dest in faults then Some(faults[dest]) else None
      ensures files == if dest in faults then old(files) else old(files)[dest := content]
    {
      if dest in faults {
        err := Some(faults[dest]);
      } else {
        files := files[dest := content];
        err := None;
      }
    }
  }
}
