/**
 * src/metrics/store.rs: the sled tree of the legacy Rust service. It keeps
 * every upload result under its file key and two counters, "num_files" and
 * "size_files", which the service creates at start-up (src/main.rs:84-90)
 * and which every stored result advances. A counter that is missing is
 * None; reading it then panics, which is why the operations that read one
 * require it. The bincode encoding of the values is not modelled: a value
 * is kept as what it encodes, and an encoding failure is the `encode` flag.
 *
 * The ghost `history` lists the results stored since the tree was opened;
 * `Valid` ties the counters to it, so the counters always count exactly
 * the stores that succeeded.
 */
module SledStore {
  import opened Common
  import CdnDelegate

  type UploadResult = CdnDelegate.UploadResult

  /** Whether `encode_to_vec` and the insert fail on this call. */
  datatype StoreFaults = StoreFaults(encode: bool, insert: bool)

  /** Whether a `store_file` call gets as far as the counters. */
  predicate Stores(f: StoreFaults)
  {
    !f.encode && !f.insert
  }

  /** The total size of a list of results, the last one added last. */
  function TotalSize(results: seq<UploadResult>): nat
  {
    if |results| == 0 then 0 else TotalSize(results[..|results| - 1]) + results[|results| - 1].size
  }

  class Sled {
    var records: map<string, UploadResult>
    var numFiles: Option<nat>
    var sizeFiles: Option<nat>
    ghost var history: seq<UploadResult>
    ghost var baseFiles: int
    ghost var baseSize: int

    /** Both counters exist, so the totals can be read and advanced. */
    predicate Initialised()
      reads this
    {
      numFiles.Some? && sizeFiles.Some?
    }

    /**
     * The counters are their values when counting began plus one file and
     * its size for every result stored since, and every stored result is
     * still in the tree.
     */
    ghost predicate Valid()
      reads this
    {
      && (numFiles.Some? ==> numFiles.value == baseFiles + |history|)
      && (sizeFiles.Some? ==> sizeFiles.value == baseSize + TotalSize(history))
      && (!Initialised() ==> history == [])
      && (forall i :: 0 <= i < |history| ==> history[i].file in records)
    }

    /** The tree as it is opened, with whatever records and counters it already has. */
    constructor (records: map<string, UploadResult>, numFiles: Option<nat>, sizeFiles: Option<nat>)
      ensures Valid() && history == []
      ensures this.records == records && this.numFiles == numFiles && this.sizeFiles == sizeFiles
    {
      this.records := records;
      this.numFiles := numFiles;
      this.sizeFiles := sizeFiles;
      history := [];
      baseFiles := if numFiles.Some? then numFiles.value else 0;
      baseSize := if sizeFiles.Some? then sizeFiles.value else 0;
    }

    /** The start-up preflight: a counter that does not exist yet is created at zero. */
    method Preflight()
      requires Valid()
      modifies this
      ensures Valid() && Initialised()
      ensures numFiles == (if old(numFiles).Some? then old(numFiles) else Some(0))
      ensures sizeFiles == (if old(sizeFiles).Some? then old(sizeFiles) else Some(0))
      ensures records == old(records) && history == old(history)
    {
      if numFiles.None? {
        numFiles := Some(0);
        baseFiles := 0;
      }
      if sizeFiles.None? {
        sizeFiles := Some(0);
        baseSize := 0;
      }
    }

    /** `increment_totals`: one more file, `size` more bytes. */
    method IncrementTotals(size: nat)
      requires Initialised()
      modifies this
      ensures numFiles == Some(old(numFiles).value + 1)
      ensures sizeFiles == Some(old(sizeFiles).value + size)
      ensures records == old(records)
      ensures history == old(history) && baseFiles == old(baseFiles) && baseSize == old(baseSize)
    {
      numFiles := Some(numFiles.value + 1);
      sizeFiles := Some(sizeFiles.value + size);
    }

    /** `get_totals`: the file count and the byte count, which are those of the stores counted. */
    method GetTotals() returns (files: nat, size: nat)
      requires Initialised() && Valid()
      ensures files == numFiles.value && size == sizeFiles.value
      ensures files == baseFiles + |history| && size == baseSize + TotalSize(history)
    {
      files, size := numFiles.value, sizeFiles.value;
    }

    /**
     * `store_file`: the result goes in under its file key and is counted;
     * a failed encoding or insert returns early, leaving the tree as it was.
     */
    method StoreFile(result: UploadResult, f: StoreFaults)
      requires Valid()
      requires Stores(f) ==> Initialised()
      modifies this
      ensures Valid()
      ensures records == if Stores(f) then old(records)[result.file := result] else old(records)
      ensures numFiles == if Stores(f) then Some(old(numFiles).value + 1) else old(numFiles)
      ensures sizeFiles == if Stores(f) then Some(old(sizeFiles).value + result.size) else old(sizeFiles)
      ensures history == if Stores(f) then old(history) + [result] else old(history)
    {
      if f.encode {
        return;
      }
      if f.insert {
        return;
      }
      records := records[result.file := result];
      IncrementTotals(result.size);
      history := history + [result];
    }
  }
}
