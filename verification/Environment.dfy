/** What the program asks of its surroundings: the file system it stats and reads, and SHA-256. */
module Environment {
  import opened Bytes
  import opened Records

  datatype File = File(data: seq<Byte>, mtime: int)
  type FileSys = map<Path, File>

  /** files is the file system during one pass over it. sha is the digest of a file's contents, and
      noise the bytes found where the program leaves a digest unwritten or computes it from a reused
      hash context. */
  datatype World = World(files: FileSys, sha: seq<Byte> -> Digest, noise: Path -> Digest)
  {
    /** st_mtime and st_size of a path; a failed stat leaves the zeroed buffer. */
    function Mtime(p: Path): int {
      if p in files then files[p].mtime else 0
    }

    function Size(p: Path): nat {
      if p in files then |files[p].data| else 0
    }

    /** check_sum_generater: a file that cannot be opened leaves the old bytes in place. */
    function Digest(p: Path, prior: Digest): Digest {
      if p in files then sha(files[p].data) else prior
    }

    /** The digest the slave stores for a file that compares different. The hash context it uses is
        shared by all files of the exchange, so nothing is known of the result. */
    function Rehashed(r: Record): Digest {
      if r.path in files then noise(r.path) else r.checkSum
    }

    /** The record add_path makes for a new path: marked for sending. */
    function NewRecord(p: Path): Record {
      Record(p, Size(p), Digest(p, noise(p)), Mtime(p), 1)
    }

    /** What check_path makes of a record: refreshed and marked exactly if its time stamp differs. */
    function Checked(r: Record, p: Path): Record {
      if r.mtime == Mtime(p) then r.(state := 0)
      else r.(mtime := Mtime(p), dataSize := Size(p), checkSum := Digest(p, r.checkSum), state := 1)
    }
  }

  /** What the program records of a path, and makes of its record, in terms of the file. */
  lemma RecordedIs(w: World, p: Path, r: Record)
    ensures p !in w.files ==> w.NewRecord(p) == Record(p, 0, w.noise(p), 0, 1)
    ensures p in w.files ==> var f := w.files[p];
      && w.NewRecord(p) == Record(p, |f.data|, w.sha(f.data), f.mtime, 1)
      && w.Checked(r, p) == (if f.mtime == r.mtime then Record(r.path, r.dataSize, r.checkSum, r.mtime, 0)
                             else Record(r.path, |f.data|, w.sha(f.data), f.mtime, 1))
    ensures w.Rehashed(r) == if r.path in w.files then w.noise(r.path) else r.checkSum
  {
  }
}
