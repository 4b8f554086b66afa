/** Staging a firmware file on the U-Disk volume: copy through a temporary file,
  * a rename that never replaces, and a checksum of what the volume holds. */
module Firmware {
  import opened Wrappers

  type Byte = x: int | 0 <= x < 256

  const Official := "Insta360LINK2CPROFW_HOST.bin"
  const CopyChunk := 1024 * 1024
  const FreeSpaceMargin := 8 * 1024 * 1024

  function TemporaryPrefix(): string { "." + Official + ".linkctl-" }

  function TemporaryName(operation: string): string { TemporaryPrefix() + operation + ".tmp" }

  lemma {:induction false} TemporaryNameFacts(operation: string)
    ensures TemporaryPrefix() <= TemporaryName(operation) && TemporaryName(operation) != Official
  {
    assert TemporaryName(operation)[0] == '.' && Official[0] == 'I';
  }

  type Files = map<string, seq<Byte>>

  /** One turn of the copy loop: an interrupt, a failed read, or a chunk of at most
    * `size` bytes that the volume takes, or of which it keeps `torn`. */
  datatype Turn = Interrupted | ReadFails | Chunk(size: nat, torn: Option<nat>, progressFails: bool)

  /** What fails outside the loop, and what other programs and the medium do. */
  datatype Script = Script(
    rootIsDirectory: bool,
    inspectable: bool,
    listable: bool,
    available: Option<nat>,
    opensRoot: bool,
    creates: bool,
    opensSource: bool,
    turns: seq<Turn>,
    syncs: bool,
    intruder: Option<seq<Byte>>,
    renames: bool,
    stored: Option<seq<Byte>>,
    syncsRoot: bool,
    reopens: bool,
    rereads: bool,
    chunks: seq<nat>,
    cleans: bool)

  /** `finalized` is the error's `destination_finalized` detail. */
  datatype Result<D> = Staged(bytes: nat, digest: D) | Failed(finalized: bool)

  datatype Info<D> = Info(size: nat, digest: D)

  class Volume {
    var files: Files
    /** How often this program gave the official name to a file of its own. */
    var finalized: nat

    constructor (files: Files)
      ensures this.files == files && finalized == 0
    {
      this.files, this.finalized := files, 0;
    }
  }

  predicate HasAbandoned(files: Files) {
    exists name :: name in files && TemporaryPrefix() <= name
  }

  /** The destination is acceptable: nothing to overwrite, nothing left over, and
    * room for the file and a margin. */
  predicate Acceptable(files: Files, size: nat, script: Script) {
    && script.rootIsDirectory && script.inspectable && Official !in files
    && script.listable && !HasAbandoned(files)
    && script.available.Some? && script.available.value >= size + FreeSpaceMargin
  }

  /** A streaming digest: a state that takes one byte after the other. */
  datatype Hasher<!S, !D> = Hasher(start: S, absorb: (S, Byte) -> S, finish: S -> D)

  function Absorbed<S, D>(h: Hasher<S, D>, state: S, bytes: seq<Byte>): S
    decreases |bytes|
  {
    if bytes == [] then state else Absorbed(h, h.absorb(state, bytes[0]), bytes[1..])
  }

  function Digest<S, D>(h: Hasher<S, D>, content: seq<Byte>): D {
    h.finish(Absorbed(h, h.start, content))
  }

  /** A chunk absorbed after another is their concatenation absorbed. */
  lemma {:induction false} AbsorbedAppend<S, D>(h: Hasher<S, D>, state: S, a: seq<Byte>, b: seq<Byte>)
    ensures Absorbed(h, state, a + b) == Absorbed(h, Absorbed(h, state, a), b)
    decreases |a|
  {
    if a == [] {
      assert a + b == b;
    } else {
      assert (a + b)[1..] == a[1..] + b;
      AbsorbedAppend(h, h.absorb(state, a[0]), a[1..], b);
    }
  }

  lemma {:induction false} AbsorbedChunk<S, D>(h: Hasher<S, D>, content: seq<Byte>, read: nat, n: nat)
    requires read + n <= |content|
    ensures Absorbed(h, Absorbed(h, h.start, content[..read]), content[read..read + n]) ==
            Absorbed(h, h.start, content[..read + n])
  {
    AbsorbedAppend(h, h.start, content[..read], content[read..read + n]);
    assert content[..read] + content[read..read + n] == content[..read + n];
  }

  /** Reads to the end in chunks; the digest does not depend on the chunking. */
  method HashReader<S, D>(h: Hasher<S, D>, content: seq<Byte>, sizes: seq<nat>) returns (digest: D)
    ensures digest == Digest(h, content)
  {
    var state := h.start;
    var read, i := 0, 0;
    assert content[..0] == [];
    while read < |content|
      invariant read <= |content| && state == Absorbed(h, h.start, content[..read])
      decreases |content| - read
    {
      var n := ChunkLength(if i < |sizes| then sizes[i] else CopyChunk, |content| - read);
      AbsorbedChunk(h, content, read, n);
      state := Absorbed(h, state, content[read..read + n]);
      read, i := read + n, i + 1;
    }
    assert content[..read] == content;
    digest := h.finish(state);
  }

  function ChunkLength(size: nat, left: nat): (n: nat)
    requires left > 0
    ensures 0 < n <= left && n <= CopyChunk
  {
    var wanted := if size == 0 then 1 else if size > CopyChunk then CopyChunk else size;
    if wanted > left then left else wanted
  }

  /** The turns let a copy with `left` bytes to go come to its end: none before it
    * is interrupted, fails to read, to write or to report. */
  predicate Finishes(left: nat, turns: seq<Turn>)
    decreases |turns|
  {
    turns == [] ||
    match turns[0]
    case Interrupted => false
    case ReadFails => false
    case Chunk(size, torn, progressFails) =>
      left == 0 || (torn.None? && !progressFails && Finishes(left - ChunkLength(size, left), turns[1..]))
  }

  function From(turns: seq<Turn>, i: nat): seq<Turn> { if i <= |turns| then turns[i..] else [] }

  function TurnAt(turns: seq<Turn>, i: nat): Turn {
    if i < |turns| then turns[i] else Chunk(CopyChunk, None, false)
  }

  predicate FinishesFrom(left: nat, turns: seq<Turn>, i: nat) { Finishes(left, From(turns, i)) }

  lemma {:induction false} FinishesStep(left: nat, turns: seq<Turn>, i: nat)
    ensures var turn := TurnAt(turns, i);
            FinishesFrom(left, turns, i) <==>
              && turn.Chunk?
              && (left == 0 || (turn.torn.None? && !turn.progressFails
                                && FinishesFrom(left - ChunkLength(turn.size, left), turns, i + 1)))
  {
    if i < |turns| {
      assert From(turns, i)[0] == turns[i] && From(turns, i)[1..] == From(turns, i + 1);
    }
  }

  /** Reports rise, and at each the file held exactly that prefix of the source. */
  predicate Reported(progress: seq<nat>, seen: seq<seq<Byte>>, content: seq<Byte>, copied: nat) {
    && |seen| == |progress| && copied <= |content|
    && (forall i :: 0 <= i < |progress| ==> 0 < progress[i] <= copied && seen[i] == content[..progress[i]])
    && (forall i, j :: 0 <= i < j < |progress| ==> progress[i] < progress[j])
    && (copied > 0 ==> progress != [] && progress[|progress| - 1] == copied)
  }

  lemma {:induction false} ReportedGrows(progress: seq<nat>, seen: seq<seq<Byte>>, content: seq<Byte>, copied: nat,
          n: nat)
    requires copied < copied + n <= |content| && Reported(progress, seen, content, copied)
    ensures Reported(progress + [copied + n], seen + [content[..copied + n]], content, copied + n)
  {
  }

  /** The copy so far: the file and the running digest are those of a prefix. */
  ghost predicate Progressed<S, D>(h: Hasher<S, D>, content: seq<Byte>, copied: nat, hashed: S, file: seq<Byte>) {
    copied <= |content| && file == content[..copied] && hashed == Absorbed(h, h.start, content[..copied])
  }

  lemma {:induction false} ProgressedGrows<S, D>(h: Hasher<S, D>, content: seq<Byte>, copied: nat, hashed: S,
          file: seq<Byte>, n: nat)
    requires Progressed(h, content, copied, hashed, file) && copied + n <= |content|
    ensures var chunk := content[copied..copied + n];
            && file + chunk == content[..copied + n]
            && Progressed(h, content, copied + n, Absorbed(h, hashed, chunk), file + chunk)
  {
    assert content[..copied] + content[copied..copied + n] == content[..copied + n];
    AbsorbedChunk(h, content, copied, n);
  }

  lemma {:induction false} WholeCopy<S, D>(h: Hasher<S, D>, content: seq<Byte>, hashed: S, file: seq<Byte>)
    requires Progressed(h, content, |content|, hashed, file)
    ensures file == content && h.finish(hashed) == Digest(h, content)
  {
    assert content[..|content|] == content;
  }

  /** Writes a chunk, or the part of it that the volume keeps, and digests it. */
  method TakeChunk<S, D>(v: Volume, h: Hasher<S, D>, temporary: string, content: seq<Byte>, copied: nat, hashed: S,
          turn: Turn)
    returns (taken: bool, total: nat, digested: S)
    requires temporary in v.files && Progressed(h, content, copied, hashed, v.files[temporary])
    requires copied < |content| && turn.Chunk?
    modifies v`files
    ensures temporary in v.files && v.files == old(v.files)[temporary := v.files[temporary]]
    ensures taken <==> turn.torn.None?
    ensures if !taken then total == copied
            else total == copied + ChunkLength(turn.size, |content| - copied)
                 && Progressed(h, content, total, digested, v.files[temporary])
  {
    var n := ChunkLength(turn.size, |content| - copied);
    var chunk := content[copied..copied + n];
    ProgressedGrows(h, content, copied, hashed, v.files[temporary], n);
    taken, total, digested := turn.torn.None?, copied, hashed;
    if taken {
      v.files := v.files[temporary := v.files[temporary] + chunk];
      total, digested := copied + n, Absorbed(h, hashed, chunk);
    } else {
      var kept := if turn.torn.value <= n then turn.torn.value else n;
      v.files := v.files[temporary := v.files[temporary] + chunk[..kept]];
    }
  }

  /** The copy loop.  It reports rising totals, and at every report the temporary
    * file holds exactly that prefix of the source. */
  method CopyLoop<S, D>(v: Volume, h: Hasher<S, D>, temporary: string, content: seq<Byte>, turns: seq<Turn>)
    returns (ok: bool, copied: nat, hashed: S, progress: seq<nat>, ghost seen: seq<seq<Byte>>)
    requires temporary in v.files && v.files[temporary] == []
    modifies v`files
    ensures temporary in v.files && v.files == old(v.files)[temporary := v.files[temporary]]
    ensures ok ==> copied == |content| && v.files[temporary] == content && h.finish(hashed) == Digest(h, content)
    ensures ok <==> Finishes(|content|, turns)
    ensures copied <= |content| && Reported(progress, seen, content, copied)
  {
    ok, copied, hashed, progress, seen := false, 0, h.start, [], [];
    var i := 0;
    ghost var files := v.files;
    assert content[..0] == [] && From(turns, 0) == turns;
    while true
      invariant temporary in v.files && Progressed(h, content, copied, hashed, v.files[temporary])
      invariant v.files == files[temporary := v.files[temporary]]
      invariant Reported(progress, seen, content, copied)
      invariant Finishes(|content|, turns) <==> FinishesFrom(|content| - copied, turns, i)
      decreases |content| - copied
    {
      var turn := TurnAt(turns, i);
      FinishesStep(|content| - copied, turns, i);
      i := i + 1;
      if turn.Interrupted? || turn.ReadFails? { return; }
      if copied == |content| { break; }
      ReportedGrows(progress, seen, content, copied, ChunkLength(turn.size, |content| - copied));
      var taken;
      taken, copied, hashed := TakeChunk(v, h, temporary, content, copied, hashed, turn);
      if !taken { return; }
      progress, seen := progress + [copied], seen + [v.files[temporary]];
      if turn.progressFails { return; }
    }
    WholeCopy(h, content, hashed, v.files[temporary]);
    ok := true;
  }

  /** Gives the temporary file the official name, unless that name is taken. */
  method RenameNoReplace(v: Volume, temporary: string, script: Script) returns (ok: bool)
    requires temporary in v.files && temporary != Official
    modifies v
    ensures ok <==> Official !in old(v.files) && script.renames
    ensures ok ==>
              var bytes := if script.stored.Some? then script.stored.value else old(v.files)[temporary];
              v.files == (old(v.files) - {temporary})[Official := bytes]
    ensures !ok ==> v.files == old(v.files)
    ensures v.finalized == old(v.finalized) + if ok then 1 else 0
  {
    if Official in v.files || !script.renames { return false; }
    var bytes := if script.stored.Some? then script.stored.value else v.files[temporary];
    v.files := (v.files - {temporary})[Official := bytes];
    v.finalized := v.finalized + 1;
    ok := true;
  }

  /** The files other programs may have added to during the copy. */
  function Intruded(files: Files, intruder: Option<seq<Byte>>): Files {
    if intruder.Some? && Official !in files then files[Official := intruder.value] else files
  }

  /** The copy gets to the official name. */
  predicate Arrives<S, D(==)>(h: Hasher<S, D>, content: seq<Byte>, info: Info<D>, script: Script) {
    && script.opensSource && Finishes(|content|, script.turns)
    && |content| == info.size && Digest(h, content) == info.digest
    && script.syncs && script.intruder.None? && script.renames
  }

  /** What the volume holds under that name reads back with the digest. */
  predicate Confirms<S, D(==)>(h: Hasher<S, D>, content: seq<Byte>, info: Info<D>, script: Script) {
    && script.syncsRoot && script.reopens && script.rereads
    && Digest(h, if script.stored.Some? then script.stored.value else content) == info.digest
  }

  /** From the created temporary file to the verified destination. */
  method CopyInto<S, D(==)>(v: Volume, h: Hasher<S, D>, temporary: string, content: seq<Byte>, info: Info<D>,
          script: Script)
    returns (r: Result<D>, progress: seq<nat>, ghost seen: seq<seq<Byte>>)
    requires temporary in v.files && v.files[temporary] == [] && temporary != Official && Official !in v.files
    modifies v
    ensures |seen| == |progress| && forall i :: 0 <= i < |progress| ==>
            0 < progress[i] <= |content| && seen[i] == content[..progress[i]]
    ensures forall i, j :: 0 <= i < j < |progress| ==> progress[i] < progress[j]
    ensures v.finalized == old(v.finalized) + if r.Staged? || r.finalized then 1 else 0
    ensures r.Staged? || r.finalized ==>
              && v.files ==
                  (old(v.files) - {temporary})[Official := if script.stored.Some? then script.stored.value else content]
              && |content| == info.size && Digest(h, content) == info.digest
    ensures r.Staged? ==> Digest(h, v.files[Official]) == info.digest && r.digest == info.digest && r.bytes == info.size
    ensures r.Staged? || r.finalized <==> Arrives(h, content, info, script)
    ensures r.Staged? <==> Arrives(h, content, info, script) && Confirms(h, content, info, script)
    ensures r.Failed? && !r.finalized ==>
              && temporary in v.files
              && (v.files - {temporary} == old(v.files) - {temporary}
                  || v.files - {temporary} == Intruded(old(v.files) - {temporary}, script.intruder))
  {
    r, progress, seen := Failed(false), [], [];
    if !script.opensSource { return; }
    var ok, copied, hashed;
    ok, copied, hashed, progress, seen := CopyLoop(v, h, temporary, content, script.turns);
    assert v.files - {temporary} == old(v.files) - {temporary};
    if !ok { return; }
    if copied != info.size || h.finish(hashed) != info.digest || !script.syncs { return; }
    if script.intruder.Some? && Official !in v.files { v.files := v.files[Official := script.intruder.value]; }
    ghost var before := v.files;
    var renamed := RenameNoReplace(v, temporary, script);
    if !renamed { return; }
    assert before - {temporary} == old(v.files) - {temporary};
    if !script.syncsRoot || !script.reopens || !script.rereads { return Failed(true), progress, seen; }
    var staged := HashReader(h, v.files[Official], script.chunks);
    if staged != info.digest { return Failed(true), progress, seen; }
    r := Staged(copied, staged);
  }

  /** The volume can take the file: its root is a directory without the official
    * file and without a left-over temporary, with eight mebibytes more to spare. */
  ghost predicate Ready(files: Files, size: nat, script: Script) {
    && script.rootIsDirectory && script.inspectable && script.listable && Official !in files
    && (forall name :: name in files ==> !(TemporaryPrefix() <= name))
    && script.available.Some? && script.available.value - size >= 8 * 1024 * 1024
    && script.opensRoot && script.creates
  }

  /** The outcome of a copy is exact.  It makes the destination if and only if the
    * volume is ready, the whole file of the validated size and digest is copied
    * and nothing takes its name, and it says so; it succeeds if and only if what
    * the volume then holds reads back with that digest.  An existing destination
    * is never touched, nothing else on the volume changes, and a temporary file
    * stays only when its removal failed. */
  method CopyFirmwareToVolume<S, D(==)>(v: Volume, h: Hasher<S, D>, operation: string, content: seq<Byte>,
          info: Info<D>, script: Script)
    returns (r: Result<D>, progress: seq<nat>, ghost seen: seq<seq<Byte>>)
    modifies v
    ensures v.finalized == old(v.finalized) + if r.Staged? || r.finalized then 1 else 0
    ensures Official in old(v.files) ==> r == Failed(false) && v.files == old(v.files)
    ensures HasAbandoned(old(v.files)) ==> r == Failed(false) && v.files == old(v.files)
    ensures r.Staged? || r.finalized <==>
              Ready(old(v.files), info.size, script) && Arrives(h, content, info, script)
    ensures r.Staged? <==>
              && Ready(old(v.files), info.size, script) && Arrives(h, content, info, script)
              && Confirms(h, content, info, script)
    ensures r.Staged? ==>
            Official in v.files && Digest(h, v.files[Official]) == info.digest && r.digest == info.digest
            && r.bytes == info.size
    ensures r.Staged? || r.finalized ==>
              v.files == old(v.files)[Official := if script.stored.Some? then script.stored.value else content]
    ensures r == Failed(false) ==>
              || v.files - {TemporaryName(operation)} == old(v.files) - {TemporaryName(operation)}
              || v.files - {TemporaryName(operation)} ==
                  Intruded(old(v.files) - {TemporaryName(operation)}, script.intruder)
    ensures TemporaryName(operation) in v.files && TemporaryName(operation) !in old(v.files) ==>
            !script.cleans && r == Failed(false)
    ensures |seen| == |progress| && forall i :: 0 <= i < |progress| ==>
            0 < progress[i] <= |content| && seen[i] == content[..progress[i]]
    ensures forall i, j :: 0 <= i < j < |progress| ==> progress[i] < progress[j]
  {
    var temporary := TemporaryName(operation);
    TemporaryNameFacts(operation);
    r, progress, seen := Failed(false), [], [];
    if !Acceptable(v.files, info.size, script) { return; }
    if !script.opensRoot || !script.creates || temporary in v.files { return; }
    assert Ready(v.files, info.size, script);
    assert v.files == v.files - {temporary};
    v.files := v.files[temporary := []];
    assert v.files - {temporary} == old(v.files);
    r, progress, seen := CopyInto(v, h, temporary, content, info, script);
    ghost var copied := v.files;
    if r.Failed? && temporary in v.files && script.cleans {
      v.files := v.files - {temporary};
      assert v.files - {temporary} == copied - {temporary};
    }
    assert old(v.files) - {temporary} == old(v.files);
  }
}
