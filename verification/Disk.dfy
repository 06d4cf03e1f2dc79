/** The managed store directory: three JSON files, each replaced by an atomic write that may
    land, fail, or be cut off by a crash. */
module Disk {
  import opened Receipts
  import Dedupe

  datatype Chain = Chain(records: seq<Record>, headHash: string)

  datatype RegistryEntry = RegistryEntry(recordID: string, recordHash: string, sourceArtifactDigest: string,
                                         receipt: Receipt)

  /** A file that does not exist, cannot be read or decoded, or holds a value. */
  datatype File<+T> = Absent | Garbled | Holds(value: T)

  /** What becomes of a write: it lands; it fails and leaves the file alone; or the process dies first. */
  datatype Fate = Lands | Fails | Dies

  datatype Files = Files(chain: File<Chain>, index: File<Dedupe.Entries>, registry: File<seq<RegistryEntry>>)

  function After<T>(file: File<T>, value: T, fate: Fate): File<T> {
    if fate.Lands? then Holds(value) else file
  }

  class Directory {
    var chain: File<Chain>
    var index: File<Dedupe.Entries>
    var registry: File<seq<RegistryEntry>>

    constructor ()
      ensures Contents() == Files(Absent, Absent, Absent)
    {
      chain, index, registry := Absent, Absent, Absent;
    }

    function Contents(): Files
      reads this
    {
      Files(chain, index, registry)
    }

    method WriteChain(value: Chain, fate: Fate)
      modifies this`chain
      ensures chain == After(old(chain), value, fate)
    {
      if fate.Lands? {
        chain := Holds(value);
      }
    }

    method WriteIndex(value: Dedupe.Entries, fate: Fate)
      modifies this`index
      ensures index == After(old(index), value, fate)
    {
      if fate.Lands? {
        index := Holds(value);
      }
    }

    method WriteRegistry(value: seq<RegistryEntry>, fate: Fate)
      modifies this`registry
      ensures registry == After(old(registry), value, fate)
    {
      if fate.Lands? {
        registry := Holds(value);
      }
    }
  }
}
