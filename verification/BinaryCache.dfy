/** The cache of client binaries: an update fills a temporary directory, verifies every checksum, and swaps
    directories by renames. Every step of it may fail. */
module BinaryCache {
  import opened Common

  datatype Place = CacheDir | OldDir | TmpDir

  /** File name to content. */
  type Dir = map<string, string>

  type Fs = map<Place, Dir>

  /** Hexadecimal SHA-256 of a content; any function will do. */
  type Hash = string -> string

  // ----- what may go wrong -----

  /** A download: complete; failed before the file was created; broken off, after which the file is removed, if
      that does not fail too; or failing only when the file is closed. */
  datatype Transfer =
    | Complete(content: string)
    | NotStarted
    | BrokenOff(part: string, removeFails: bool)
    | CloseFails(part: string)

  /** A local copy: done; failed before the file was created; or failed later, leaving what was written. */
  datatype Copy = Copied | CopyNotStarted | CopyBroken(part: string)

  /** One platform: its checksum file, whether the local files could be read, the copy of a reusable local
      binary, and the download of the binary. */
  datatype Fetch = Fetch(sha: Transfer, localReadable: bool, copy: Copy, bin: Transfer)

  /** Directories that fail to be removed keep the content given. */
  datatype Faults = Faults(
    mkdirFails: bool, fetches: seq<Fetch>, version: Transfer, versionStays: bool, unreadable: set<string>,
    oldLeft: Option<Dir>, statFails: bool, renameOutFails: bool, renameInFails: bool, renameBackFails: bool,
    oldLeftAfter: Option<Dir>, tmpLeft: Option<Dir>)

  datatype Outcome = NoTempDir | NothingDownloaded | BadChecksum(name: string) | SwapFailed | Updated

  // ----- checksums -----

  const SUM_LENGTH := 64

  /** The Unicode white space that separates fields. */
  predicate IsSpace(c: char) {
    c == ' ' || '\t' <= c <= '\r' || c == '\U{85}' || c == '\U{A0}' || c == '\U{1680}' || '\U{2000}' <= c <= '\U{200A}'
    || c == '\U{2028}' || c == '\U{2029}' || c == '\U{202F}' || c == '\U{205F}' || c == '\U{3000}'
  }

  function SkipSpaces(s: string): string {
    if s != "" && IsSpace(s[0]) then SkipSpaces(s[1..]) else s
  }

  function TakeField(s: string): string {
    if s == "" || IsSpace(s[0]) then "" else [s[0]] + TakeField(s[1..])
  }

  /** A bare digest, or the first field of a `sha256sum` line. */
  function ParseSum(content: string): Option<string> {
    var field := TakeField(SkipSpaces(content));
    if |field| == SUM_LENGTH then Some(field) else None
  }

  function BinName(platform: string): string {
    "lrc-" + platform
  }

  function ShaName(name: string): string {
    name + ".sha256"
  }

  /** Blanks and line ends of both kinds are white space, digits are not. */
  lemma AsciiBlanks()
    ensures Blank(" \t\n\r\U{0B}\U{0C}") && Solid("0123456789abcdef")
  {
  }

  predicate Blank(s: string) {
    forall i | 0 <= i < |s| :: IsSpace(s[i])
  }

  predicate Solid(s: string) {
    forall i | 0 <= i < |s| :: !IsSpace(s[i])
  }

  lemma {:induction false} FieldAfterBlank(before: string, field: string, rest: string)
    requires Blank(before) && Solid(field) && field != "" && (rest != "" ==> IsSpace(rest[0]))
    ensures TakeField(SkipSpaces(before + field + rest)) == field
  {
    if before == "" {
      assert before + field + rest == field + rest;
      FieldTaken(field, rest);
    } else {
      FieldAfterBlank(before[1..], field, rest);
      assert (before + field + rest)[1..] == before[1..] + field + rest;
    }
  }

  lemma {:induction false} FieldTaken(field: string, rest: string)
    requires Solid(field) && (rest != "" ==> IsSpace(rest[0]))
    ensures TakeField(field + rest) == field
  {
    if field != "" {
      FieldTaken(field[1..], rest);
      assert (field + rest)[1..] == field[1..] + rest;
      assert [field[0]] + field[1..] == field;
    } else {
      assert field + rest == rest;
    }
  }

  lemma {:induction false} FieldSplit(s: string) returns (before: string, rest: string)
    ensures s == before + TakeField(SkipSpaces(s)) + rest && Blank(before) && Solid(TakeField(SkipSpaces(s)))
    ensures rest != "" ==> IsSpace(rest[0])
  {
    if s != "" && IsSpace(s[0]) {
      before, rest := FieldSplit(s[1..]);
      assert s == [s[0]] + s[1..];
      before := [s[0]] + before;
    } else {
      before := "";
      rest := TakeRest(s);
    }
  }

  lemma {:induction false} TakeRest(s: string) returns (rest: string)
    ensures s == TakeField(s) + rest && Solid(TakeField(s)) && (rest != "" ==> IsSpace(rest[0]))
  {
    if s == "" || IsSpace(s[0]) {
      rest := s;
    } else {
      rest := TakeRest(s[1..]);
      assert s == [s[0]] + s[1..];
    }
  }

  /** After blanks, the content starts with d, and then ends or goes on with a blank. */
  ghost predicate StartsWithField(content: string, d: string) {
    exists before, rest :: SplitAt(content, before, d, rest)
  }

  predicate SplitAt(content: string, before: string, d: string, rest: string) {
    content == before + d + rest && Blank(before) && (rest != "" ==> IsSpace(rest[0]))
  }

  /** What a checksum file says: its first field, if that has 64 characters. */
  lemma ParseSumIff(content: string, d: string)
    ensures ParseSum(content) == Some(d) <==> |d| == 64 && Solid(d) && StartsWithField(content, d)
  {
    if ParseSum(content) == Some(d) {
      var before, rest := FieldSplit(content);
      assert SplitAt(content, before, d, rest);
    }
    if |d| == 64 && Solid(d) && StartsWithField(content, d) {
      var before, rest :| SplitAt(content, before, d, rest);
      FieldAfterBlank(before, d, rest);
    }
  }

  predicate IsSha(name: string) {
    |name| >= 7 && name[|name| - 7..] == ".sha256"
  }

  /** The file's content matches the checksum file beside it. */
  predicate Verified(hash: Hash, d: Dir, name: string) {
    name in d && ShaName(name) in d && ParseSum(d[ShaName(name)]) == Some(hash(d[name]))
  }

  /** Names that the cache lists as binaries. */
  predicate Listed(name: string) {
    |name| >= 4 && name[..4] == "lrc-" && !IsSha(name)
  }

  lemma ShaNotListed(name: string)
    ensures !Listed(ShaName(name)) && ShaName(name) != name
  {
    assert ShaName(name)[|name|..] == ".sha256";
  }

  // ----- filling the temporary directory -----

  /** What a write does to its file. */
  datatype FileWrite = Written(content: string) | Untouched | Partial(part: string) | Removed

  function Put(d: Dir, name: string, w: FileWrite): Dir {
    match w
    case Written(content) => d[name := content]
    case Untouched => d
    case Partial(part) => d[name := part]
    case Removed => d - {name}
  }

  function Received(t: Transfer): FileWrite {
    match t
    case Complete(content) => Written(content)
    case NotStarted => Untouched
    case BrokenOff(part, removeFails) => if removeFails then Partial(part) else Removed
    case CloseFails(part) => Partial(part)
  }

  function CopyResult(c: Copy, content: string): FileWrite {
    match c
    case Copied => Written(content)
    case CopyNotStarted => Untouched
    case CopyBroken(part) => Partial(part)
  }

  /** Whether the local binary can stand in for the remote one: its checksum file parses, equals the remote
      one, and the file still matches it. */
  predicate Reusable(hash: Hash, cache: Option<Dir>, name: string, remoteSha: string) {
    cache.Some? && Verified(hash, cache.value, name) &&
    ParseSum(cache.value[ShaName(name)]) == ParseSum(remoteSha)
  }

  /** Whether the binary is copied from the cache rather than downloaded. */
  predicate UsesLocal(hash: Hash, cache: Option<Dir>, name: string, f: Fetch) {
    f.sha.Complete? && f.localReadable && Reusable(hash, cache, name, f.sha.content)
  }

  /** How the binary itself arrives, once its checksum file has. */
  function Arrival(hash: Hash, cache: Option<Dir>, name: string, f: Fetch): FileWrite {
    if UsesLocal(hash, cache, name, f) then CopyResult(f.copy, cache.value[name]) else Received(f.bin)
  }

  function Fetched(hash: Hash, d: Dir, cache: Option<Dir>, name: string, f: Fetch): (Dir, bool) {
    var d1 := Put(d, ShaName(name), Received(f.sha));
    if !f.sha.Complete? then (d1, false)
    else
      var w := Arrival(hash, cache, name, f);
      (Put(d1, name, w), w.Written?)
  }

  /** A platform that fails and leaves a partial binary: the copy from the cache breaks; or the download
      fails on close; or it breaks off and the removal of the partial file fails as well. */
  predicate LeavesPartial(hash: Hash, cache: Option<Dir>, name: string, f: Fetch) {
    f.sha.Complete? &&
    if UsesLocal(hash, cache, name, f) then f.copy.CopyBroken?
    else f.bin.CloseFails? || (f.bin.BrokenOff? && f.bin.removeFails)
  }

  predicate Completes(hash: Hash, cache: Option<Dir>, name: string, f: Fetch) {
    f.sha.Complete? && if UsesLocal(hash, cache, name, f) then f.copy.Copied? else f.bin.Complete?
  }

  /** The temporary directory after all platforms, and the names recorded as downloaded. */
  function Fill(hash: Hash, cache: Option<Dir>, platforms: seq<string>, fetches: seq<Fetch>): (Dir, seq<string>)
    requires |fetches| == |platforms|
  {
    if platforms == [] then (map[], [])
    else
      var n := |platforms| - 1;
      var (d, done) := Fill(hash, cache, platforms[..n], fetches[..n]);
      var (d', ok) := Fetched(hash, d, cache, BinName(platforms[n]), fetches[n]);
      (d', if ok then done + [BinName(platforms[n])] else done)
  }

  /** The binary of some platform that failed and left a partial file. */
  ghost predicate Skipped(hash: Hash, cache: Option<Dir>, platforms: seq<string>, fetches: seq<Fetch>, name: string)
    requires |fetches| == |platforms|
  {
    exists i :: 0 <= i < |platforms| && name == BinName(platforms[i]) && LeavesPartial(hash, cache, name, fetches[i])
  }

  /** The binary of some platform that was recorded. */
  ghost predicate Recorded(hash: Hash, cache: Option<Dir>, platforms: seq<string>, fetches: seq<Fetch>, name: string)
    requires |fetches| == |platforms|
  {
    exists i :: 0 <= i < |platforms| && name == BinName(platforms[i]) && Completes(hash, cache, name, fetches[i])
  }

  lemma FillSnoc(hash: Hash, cache: Option<Dir>, platforms: seq<string>, fetches: seq<Fetch>, i: nat)
    requires i < |platforms| == |fetches|
    ensures var (d, done) := Fill(hash, cache, platforms[..i], fetches[..i]);
      var name := BinName(platforms[i]);
      var (d', ok) := Fetched(hash, d, cache, name, fetches[i]);
      Fill(hash, cache, platforms[..i + 1], fetches[..i + 1]) == (d', if ok then done + [name] else done)
  {
    assert platforms[..i + 1][..i] == platforms[..i] && fetches[..i + 1][..i] == fetches[..i];
  }

  lemma LastPlatform(hash: Hash, cache: Option<Dir>, platforms: seq<string>, fetches: seq<Fetch>, name: string)
    requires 0 < |platforms| == |fetches|
    ensures var (i, last) := (|platforms| - 1, BinName(platforms[|platforms| - 1]));
      && (Recorded(hash, cache, platforms, fetches, name) <==>
            Recorded(hash, cache, platforms[..i], fetches[..i], name) ||
            (name == last && Completes(hash, cache, last, fetches[i])))
      && (Skipped(hash, cache, platforms, fetches, name) <==>
            Skipped(hash, cache, platforms[..i], fetches[..i], name) ||
            (name == last && LeavesPartial(hash, cache, last, fetches[i])))
  {
    var n := |platforms| - 1;
    var ps, fs := platforms[..n], fetches[..n];
    if Recorded(hash, cache, ps, fs, name) {
      var k :| 0 <= k < n && name == BinName(ps[k]) && Completes(hash, cache, name, fs[k]);
      assert platforms[k] == ps[k] && fetches[k] == fs[k];
    }
    if Skipped(hash, cache, ps, fs, name) {
      var k :| 0 <= k < n && name == BinName(ps[k]) && LeavesPartial(hash, cache, name, fs[k]);
      assert platforms[k] == ps[k] && fetches[k] == fs[k];
    }
    if Recorded(hash, cache, platforms, fetches, name) {
      var k :| 0 <= k <= n && name == BinName(platforms[k]) && Completes(hash, cache, name, fetches[k]);
      assert k < n ==> platforms[k] == ps[k] && fetches[k] == fs[k];
    }
    if Skipped(hash, cache, platforms, fetches, name) {
      var k :| 0 <= k <= n && name == BinName(platforms[k]) && LeavesPartial(hash, cache, name, fetches[k]);
      assert k < n ==> platforms[k] == ps[k] && fetches[k] == fs[k];
    }
  }

  /** A platform adds at most its own binary to the listed names: when it completes, or leaves a partial one. */
  lemma FetchedNames(hash: Hash, d: Dir, cache: Option<Dir>, name: string, f: Fetch)
    requires Listed(name) && name !in d
    ensures var (d', ok) := Fetched(hash, d, cache, name, f);
      && (ok <==> Completes(hash, cache, name, f))
      && forall n :: n in d' && Listed(n) <==>
           (n in d && Listed(n)) || (n == name && (ok || LeavesPartial(hash, cache, name, f)))
  {
    ShaNotListed(name);
  }

  predicate Distinct(platforms: seq<string>) {
    && (forall p | p in platforms :: !IsSha(BinName(p)))
    && (forall i, j | 0 <= i < j < |platforms| :: platforms[i] != platforms[j])
  }

  lemma BinNameInjective(p: string, q: string)
    requires BinName(p) == BinName(q)
    ensures p == q
  {
    assert BinName(p)[4..] == p && BinName(q)[4..] == q;
  }

  /** The recorded names are those of the platforms that completed; the names listed in the directory are
      those and the names of platforms that failed and left a partial binary. */
  lemma {:induction false} FillNames(hash: Hash, cache: Option<Dir>, platforms: seq<string>, fetches: seq<Fetch>)
    requires |fetches| == |platforms| && Distinct(platforms)
    ensures var (d, done) := Fill(hash, cache, platforms, fetches);
      && (forall name :: name in done <==> Recorded(hash, cache, platforms, fetches, name))
      && (forall name :: name in d && Listed(name) <==>
            name in done || Skipped(hash, cache, platforms, fetches, name))
  {
    if |platforms| > 0 {
      var n := |platforms| - 1;
      var last := BinName(platforms[n]);
      FillNames(hash, cache, platforms[..n], fetches[..n]);
      LastIsNew(hash, cache, platforms, fetches);
      FetchedNames(hash, Fill(hash, cache, platforms[..n], fetches[..n]).0, cache, last, fetches[n]);
      forall name {
        LastPlatform(hash, cache, platforms, fetches, name);
      }
    }
  }

  lemma LastIsNew(hash: Hash, cache: Option<Dir>, platforms: seq<string>, fetches: seq<Fetch>)
    requires 0 < |platforms| == |fetches| && Distinct(platforms)
    requires var n := |platforms| - 1;
      var (d, done) := Fill(hash, cache, platforms[..n], fetches[..n]);
      && (forall name :: name in done <==> Recorded(hash, cache, platforms[..n], fetches[..n], name))
      && (forall name :: name in d && Listed(name) <==>
            name in done || Skipped(hash, cache, platforms[..n], fetches[..n], name))
    ensures var n := |platforms| - 1;
      Listed(BinName(platforms[n])) && BinName(platforms[n]) !in Fill(hash, cache, platforms[..n], fetches[..n]).0
  {
    var n := |platforms| - 1;
    forall i | 0 <= i < n
      ensures BinName(platforms[..n][i]) != BinName(platforms[n])
    {
      if BinName(platforms[i]) == BinName(platforms[n]) {
        BinNameInjective(platforms[i], platforms[n]);
      }
    }
  }

  /** When the old cache serves a binary: it has the file, its own checksum file reads like the remote one, and the file
      still matches it. The download is then not made, and what arrives is the old file. */
  lemma ServedLocally(hash: Hash, cache: Option<Dir>, name: string, f: Fetch, d: Dir, other: Transfer)
    ensures UsesLocal(hash, cache, name, f) <==>
      && f.sha.Complete? && f.localReadable && cache.Some? && name in cache.value && name + ".sha256" in cache.value
      && ParseSum(f.sha.content) == Some(hash(cache.value[name]))
      && ParseSum(cache.value[name + ".sha256"]) == Some(hash(cache.value[name]))
    ensures UsesLocal(hash, cache, name, f) ==>
      && Fetched(hash, d, cache, name, f.(bin := other)) == Fetched(hash, d, cache, name, f)
      && (f.copy.Copied? ==> name in Fetched(hash, d, cache, name, f).0 &&
                             Fetched(hash, d, cache, name, f).0[name] == cache.value[name])
  {
  }

  /** What a completed platform leaves in the directory: the checksum file and the binary that arrived for it. */
  predicate Holds(hash: Hash, cache: Option<Dir>, d: Dir, name: string, f: Fetch) {
    && name in d && name + ".sha256" in d && f.sha.Complete? && d[name + ".sha256"] == f.sha.content
    && (if UsesLocal(hash, cache, name, f) then cache.Some? && name in cache.value && d[name] == cache.value[name]
        else f.bin.Complete? && d[name] == f.bin.content)
  }

  lemma FetchedHolds(hash: Hash, d: Dir, cache: Option<Dir>, name: string, f: Fetch)
    requires Completes(hash, cache, name, f)
    ensures Holds(hash, cache, Fetched(hash, d, cache, name, f).0, name, f)
  {
    ShaNotListed(name);
  }

  /** Fetching one platform touches no file of another. */
  lemma FetchedOthers(hash: Hash, d: Dir, cache: Option<Dir>, name: string, f: Fetch, other: string, g: Fetch)
    requires Listed(name) && Listed(other) && name != other && Holds(hash, cache, d, other, g)
    ensures Holds(hash, cache, Fetched(hash, d, cache, name, f).0, other, g)
  {
    ShaNotListed(name);
    ShaNotListed(other);
    assert ShaName(name)[..|name|] == name && ShaName(other)[..|other|] == other;
  }

  lemma {:induction false} FillHolds(hash: Hash, cache: Option<Dir>, platforms: seq<string>, fetches: seq<Fetch>, i: nat)
    requires i < |platforms| == |fetches| && Distinct(platforms)
    requires Completes(hash, cache, BinName(platforms[i]), fetches[i])
    ensures Holds(hash, cache, Fill(hash, cache, platforms, fetches).0, BinName(platforms[i]), fetches[i])
  {
    var n := |platforms| - 1;
    var d := Fill(hash, cache, platforms[..n], fetches[..n]).0;
    if i == n {
      FetchedHolds(hash, d, cache, BinName(platforms[n]), fetches[n]);
    } else {
      FillHolds(hash, cache, platforms[..n], fetches[..n], i);
      if BinName(platforms[i]) == BinName(platforms[n]) {
        BinNameInjective(platforms[i], platforms[n]);
      }
      FetchedOthers(hash, d, cache, BinName(platforms[n]), fetches[n], BinName(platforms[i]), fetches[i]);
    }
  }

  const VERSION := "version.txt"

  lemma VersionIsNoBinary()
    ensures !Listed(VERSION)
  {
    assert VERSION[..4][0] == 'v';
  }

  /** The version file is optional: whatever a failed download leaves of it is removed, if that does not fail. */
  function Versioned(d: Dir, f: Faults): Dir {
    var d1 := Put(d, VERSION, Received(f.version));
    if f.version.Complete? || f.versionStays then d1 else d1 - {VERSION}
  }

  function Prepared(hash: Hash, cache: Option<Dir>, platforms: seq<string>, f: Faults): (Dir, seq<string>)
    requires |f.fetches| == |platforms|
  {
    var (d, done) := Fill(hash, cache, platforms, f.fetches);
    (Versioned(d, f), done)
  }

  lemma VersionedNames(d: Dir, f: Faults)
    ensures forall name :: name in Versioned(d, f) && Listed(name) <==> name in d && Listed(name)
  {
    VersionIsNoBinary();
  }

  predicate Passes(hash: Hash, d: Dir, name: string, f: Faults) {
    name !in f.unreadable && Verified(hash, d, name)
  }

  // ----- directories -----

  /** Removal that may stop half-way, leaving some content. */
  function RemoveAll(fs: Fs, p: Place, left: Option<Dir>): Fs {
    if p !in fs then fs else if left.Some? then fs[p := left.value] else fs - {p}
  }

  /** A rename onto an existing directory is refused. */
  function Rename(fs: Fs, from: Place, to: Place, fails: bool): (Fs, bool) {
    if fails || from !in fs || to in fs then (fs, false)
    else ((fs - {from})[to := fs[from]], true)
  }

  function Cached(fs: Fs): Option<Dir> {
    if CacheDir in fs then Some(fs[CacheDir]) else None
  }

  /** The states the swap goes through, and whether it succeeds. */
  function Swap(fs: Fs, f: Faults): (seq<Fs>, bool) {
    var s1 := RemoveAll(fs, OldDir, f.oldLeft);
    var (s2, out) := if CacheDir in s1 && !f.statFails then Rename(s1, CacheDir, OldDir, f.renameOutFails) else (s1, true);
    if !out then ([fs, s1, s2], false)
    else
      var (s3, moved) := Rename(s2, TmpDir, CacheDir, f.renameInFails);
      if moved then ([fs, s1, s2, s3, RemoveAll(s3, OldDir, f.oldLeftAfter)], true)
      else ([fs, s1, s2, s3, Rename(s3, OldDir, CacheDir, f.renameBackFails).0], false)
  }

  /** A set of files is present in full at the cache path or at its `.old` sibling. */
  predicate Whole(fs: Fs, d: Dir) {
    (CacheDir in fs && fs[CacheDir] == d) || (OldDir in fs && fs[OldDir] == d)
  }

  function SwapEnd(fs: Fs, f: Faults): Fs {
    Swap(fs, f).0[|Swap(fs, f).0| - 1]
  }

  /** For every pattern of failures, at every moment of the swap, whether it is cut short there or not: the old
      set is whole, or the new set is in place in full. */
  lemma SwapSafe(fs: Fs, f: Faults)
    requires TmpDir in fs && CacheDir in fs
    ensures forall i | 0 <= i < |Swap(fs, f).0| ::
        Whole(Swap(fs, f).0[i], fs[CacheDir]) || Cached(Swap(fs, f).0[i]) == Some(fs[TmpDir])
  {
  }

  /** A successful swap ends with the new set in place. */
  lemma SwapInstalls(fs: Fs, f: Faults)
    requires TmpDir in fs && Swap(fs, f).1
    ensures Cached(SwapEnd(fs, f)) == Some(fs[TmpDir])
  {
  }

  /** A failed swap ends with the old set whole. It is at the cache path itself if and only if it was never moved
      out or could be moved back. */
  lemma FailedSwapPlace(fs: Fs, f: Faults)
    requires TmpDir in fs && CacheDir in fs && !Swap(fs, f).1
    ensures Whole(SwapEnd(fs, f), fs[CacheDir])
    ensures Cached(SwapEnd(fs, f)) == Some(fs[CacheDir]) <==>
      f.statFails || f.renameOutFails || (OldDir in fs && f.oldLeft.Some?) || !f.renameBackFails
  {
  }

  /** A set that is present only at `.old`, as a swap that failed twice leaves it, is not protected: the next
      swap begins by removing it. If that swap fails too, the set is still whole, at either path, if and only if
      its removal failed before touching anything. */
  lemma StrandedSetIff(fs: Fs, f: Faults)
    requires CacheDir !in fs && OldDir in fs && TmpDir in fs && !Swap(fs, f).1
    ensures Whole(SwapEnd(fs, f), fs[OldDir]) <==> f.oldLeft == Some(fs[OldDir])
  {
  }

  /** The first recorded binary that cannot be read or does not match its checksum. */
  function FirstBad(hash: Hash, d: Dir, names: seq<string>, f: Faults): (bad: Option<string>)
    ensures bad == None <==> forall name | name in names :: Passes(hash, d, name, f)
    ensures bad.Some? ==> exists i :: 0 <= i < |names| && names[i] == bad.value && !Passes(hash, d, names[i], f) &&
                                      forall j | 0 <= j < i :: Passes(hash, d, names[j], f)
  {
    if names == [] then None
    else if Passes(hash, d, names[0], f) then FirstBad(hash, d, names[1..], f)
    else Some(names[0])
  }

  /** An update: the file system it leaves, and its outcome. */
  function Updating(hash: Hash, fs: Fs, platforms: seq<string>, f: Faults): (Fs, Outcome)
    requires |f.fetches| == |platforms|
  {
    if f.mkdirFails then (fs, NoTempDir)
    else
      var (tmp, done) := Prepared(hash, Cached(fs), platforms, f);
      var filled := fs[TmpDir := tmp];
      var dropped := RemoveAll(filled, TmpDir, f.tmpLeft);
      if done == [] then
        (RemoveAll(fs[TmpDir := Fill(hash, Cached(fs), platforms, f.fetches).0], TmpDir, f.tmpLeft), NothingDownloaded)
      else
        match FirstBad(hash, tmp, done, f)
        case Some(name) => (dropped, BadChecksum(name))
        case None =>
          (RemoveAll(SwapEnd(filled, f), TmpDir, f.tmpLeft), if Swap(filled, f).1 then Updated else SwapFailed)
  }

  /** A failed update, whatever fails in it, leaves an existing old set whole, and before the swap touches no
      existing directory at all. */
  lemma FailedUpdateKeepsOld(hash: Hash, fs: Fs, platforms: seq<string>, f: Faults)
    requires TmpDir !in fs && |f.fetches| == |platforms| && !Updating(hash, fs, platforms, f).1.Updated?
    ensures var (fs', r) := Updating(hash, fs, platforms, f);
      && (CacheDir in fs ==> Whole(fs', fs[CacheDir]))
      && (!r.SwapFailed? ==> fs' - {TmpDir} == fs)
  {
    if Updating(hash, fs, platforms, f).1.SwapFailed? && CacheDir in fs {
      FailedSwapPlace(fs[TmpDir := Prepared(hash, Cached(fs), platforms, f).0], f);
    }
  }

  /** What a successful update puts in place. */
  lemma UpdateInstalls(hash: Hash, fs: Fs, platforms: seq<string>, f: Faults)
    requires TmpDir !in fs && |f.fetches| == |platforms| && Updating(hash, fs, platforms, f).1.Updated?
    ensures var (tmp, done) := Prepared(hash, Cached(fs), platforms, f);
      Cached(Updating(hash, fs, platforms, f).0) == Some(tmp) && done != [] && FirstBad(hash, tmp, done, f) == None
  {
    SwapInstalls(fs[TmpDir := Prepared(hash, Cached(fs), platforms, f).0], f);
  }

  /** A successful update leaves a cache in which every recorded binary matches its checksum, and at least
      one is recorded. It lists exactly the binaries of the platforms that completed and the partial
      ones of those that did not. */
  lemma SuccessfulUpdate(hash: Hash, fs: Fs, platforms: seq<string>, f: Faults)
    requires TmpDir !in fs && |f.fetches| == |platforms| && Distinct(platforms)
    requires Updating(hash, fs, platforms, f).1.Updated?
    ensures var (fs', cache) := (Updating(hash, fs, platforms, f).0, Cached(fs));
      && CacheDir in fs'
      && (forall name | Recorded(hash, cache, platforms, f.fetches, name) :: Verified(hash, fs'[CacheDir], name))
      && (exists name :: Recorded(hash, cache, platforms, f.fetches, name))
      && (forall name :: name in fs'[CacheDir] && Listed(name) <==>
            Recorded(hash, cache, platforms, f.fetches, name) || Skipped(hash, cache, platforms, f.fetches, name))
  {
    UpdateInstalls(hash, fs, platforms, f);
    FillNames(hash, Cached(fs), platforms, f.fetches);
    var (d, done) := Fill(hash, Cached(fs), platforms, f.fetches);
    VersionedNames(d, f);
    assert done[0] in done;
  }

  /** The new cache holds, for every platform that completed, exactly the checksum file and the binary that arrived for
      it; and a version file if and only if its download completed, or left something that could not be removed. */
  lemma UpdatedContents(hash: Hash, fs: Fs, platforms: seq<string>, f: Faults, i: nat)
    requires TmpDir !in fs && i < |f.fetches| == |platforms| && Distinct(platforms)
    requires Updating(hash, fs, platforms, f).1.Updated?
    requires Completes(hash, Cached(fs), BinName(platforms[i]), f.fetches[i])
    ensures CacheDir in Updating(hash, fs, platforms, f).0
    ensures var (d, cache) := (Updating(hash, fs, platforms, f).0[CacheDir], Cached(fs));
      && Holds(hash, cache, d, BinName(platforms[i]), f.fetches[i])
      && (f.version.Complete? ==> "version.txt" in d && d["version.txt"] == f.version.content)
      && (!f.version.Complete? && !f.versionStays ==> "version.txt" !in d)
  {
    UpdateInstalls(hash, fs, platforms, f);
    FillHolds(hash, Cached(fs), platforms, f.fetches, i);
    VersionIsNoBinary();
    assert VERSION[..4] != "lrc-" by {
      assert VERSION[..4][0] == 'v';
    }
    assert BinName(platforms[i])[..4] == "lrc-" && ShaName(BinName(platforms[i]))[..4] == "lrc-";
  }

  ghost predicate SomeRecorded(hash: Hash, cache: Option<Dir>, platforms: seq<string>, fetches: seq<Fetch>)
    requires |fetches| == |platforms|
  {
    exists name :: Recorded(hash, cache, platforms, fetches, name)
  }

  ghost predicate SomeBad(hash: Hash, cache: Option<Dir>, platforms: seq<string>, f: Faults, d: Dir)
    requires |f.fetches| == |platforms|
  {
    exists name :: Recorded(hash, cache, platforms, f.fetches, name) && (name in f.unreadable || !Verified(hash, d, name))
  }

  lemma FillSome(hash: Hash, cache: Option<Dir>, platforms: seq<string>, f: Faults, d: Dir)
    requires |f.fetches| == |platforms| && Distinct(platforms)
    ensures var done := Fill(hash, cache, platforms, f.fetches).1;
      && (done == [] <==> !SomeRecorded(hash, cache, platforms, f.fetches))
      && (FirstBad(hash, d, done, f).Some? <==> SomeBad(hash, cache, platforms, f, d))
  {
    FillNames(hash, cache, platforms, f.fetches);
    var done := Fill(hash, cache, platforms, f.fetches).1;
    if done != [] {
      assert done[0] in done;
    }
  }

  /** Which way an update ends. */
  lemma UpdateOutcomes(hash: Hash, fs: Fs, platforms: seq<string>, f: Faults)
    requires TmpDir !in fs && |f.fetches| == |platforms| && Distinct(platforms)
    ensures var (r, cache) := (Updating(hash, fs, platforms, f).1, Cached(fs));
      var tmp := Prepared(hash, cache, platforms, f).0;
      && (r.NoTempDir? <==> f.mkdirFails)
      && (r.NothingDownloaded? <==> !f.mkdirFails && !SomeRecorded(hash, cache, platforms, f.fetches))
      && (r.BadChecksum? <==> !f.mkdirFails && SomeBad(hash, cache, platforms, f, tmp))
      && (r.Updated? <==> !f.mkdirFails && SomeRecorded(hash, cache, platforms, f.fetches) &&
                          !SomeBad(hash, cache, platforms, f, tmp) && Swap(fs[TmpDir := tmp], f).1)
  {
    FillSome(hash, Cached(fs), platforms, f, Prepared(hash, Cached(fs), platforms, f).0);
  }

  /** After a successful update every listed binary is a recorded one, and so a verified one, if and only if no
      platform left a partial binary: no copy from the cache broke, no download failed on close, and no
      download that broke off could not be removed. */
  lemma ListedRecordedIff(hash: Hash, fs: Fs, platforms: seq<string>, f: Faults)
    requires TmpDir !in fs && |f.fetches| == |platforms| && Distinct(platforms)
    requires Updating(hash, fs, platforms, f).1.Updated?
    ensures CacheDir in Updating(hash, fs, platforms, f).0
    ensures var (d, cache) := (Updating(hash, fs, platforms, f).0[CacheDir], Cached(fs));
      (forall name | name in d && Listed(name) :: Recorded(hash, cache, platforms, f.fetches, name)) <==>
      (forall i | 0 <= i < |platforms| :: !LeavesPartial(hash, cache, BinName(platforms[i]), f.fetches[i]))
  {
    SuccessfulUpdate(hash, fs, platforms, f);
    var d, cache := Updating(hash, fs, platforms, f).0[CacheDir], Cached(fs);
    forall i | 0 <= i < |platforms| && LeavesPartial(hash, cache, BinName(platforms[i]), f.fetches[i])
      ensures exists name :: name in d && Listed(name) && !Recorded(hash, cache, platforms, f.fetches, name)
    {
      PartialNotRecorded(hash, cache, platforms, f.fetches, i);
    }
  }

  lemma PartialNotRecorded(hash: Hash, cache: Option<Dir>, platforms: seq<string>, fetches: seq<Fetch>, i: nat)
    requires i < |platforms| == |fetches| && Distinct(platforms)
    requires LeavesPartial(hash, cache, BinName(platforms[i]), fetches[i])
    ensures Skipped(hash, cache, platforms, fetches, BinName(platforms[i]))
    ensures !Recorded(hash, cache, platforms, fetches, BinName(platforms[i]))
  {
    forall k | 0 <= k < |platforms| && BinName(platforms[k]) == BinName(platforms[i])
      ensures k == i
    {
      BinNameInjective(platforms[k], platforms[i]);
    }
  }

  // ----- one fault is enough -----

  lemma FillTwo(hash: Hash, local: Dir, sum: string, platforms: seq<string>, fetches: seq<Fetch>, d: Dir)
    requires ParseSum(sum) == Some(hash("whole"))
    requires local == map["lrc-a.sha256" := sum, "lrc-a" := "whole"]
    requires platforms == ["a", "b"]
    requires fetches == [Fetch(Complete(sum), true, CopyBroken("part"), NotStarted),
                         Fetch(Complete(sum), false, Copied, Complete("whole"))]
    requires d == map["lrc-a.sha256" := sum, "lrc-a" := "part", "lrc-b.sha256" := sum, "lrc-b" := "whole"]
    ensures Fill(hash, Some(local), platforms, fetches) == (d, ["lrc-b"])
  {
    assert BinName("a") == "lrc-a" && BinName("b") == "lrc-b";
    assert ShaName("lrc-a") == "lrc-a.sha256" && ShaName("lrc-b") == "lrc-b.sha256";
    var first := map["lrc-a.sha256" := sum, "lrc-a" := "part"];
    var none: seq<string> := [];
    FillSnoc(hash, Some(local), platforms, fetches, 0);
    assert Fetched(hash, map[], Some(local), "lrc-a", fetches[0]) == (first, false);
    FillSnoc(hash, Some(local), platforms, fetches, 1);
    assert Fetched(hash, first, Some(local), "lrc-b", fetches[1]) == (d, true);
    assert none + ["lrc-b"] == ["lrc-b"];
    assert platforms[..2] == platforms && fetches[..2] == fetches;
  }

  lemma BrokenAndWhole(hash: Hash, sum: string, local: Dir, d: Dir, f: Faults)
    requires ParseSum(sum) == Some(hash("whole")) && hash("part") != hash("whole") && f.unreadable == {}
    requires local == map["lrc-a.sha256" := sum, "lrc-a" := "whole"]
    requires d == map["lrc-a.sha256" := sum, "lrc-a" := "part", "lrc-b.sha256" := sum, "lrc-b" := "whole"]
    ensures Verified(hash, local, "lrc-a") && !Verified(hash, d, "lrc-a") && FirstBad(hash, d, ["lrc-b"], f) == None
  {
    assert ShaName("lrc-a") == "lrc-a.sha256" && ShaName("lrc-b") == "lrc-b.sha256";
    assert Passes(hash, d, "lrc-b", f);
  }

  /** A single fault: the copy of an up-to-date binary from the old cache breaks half-way. The update succeeds, and
      the new cache lists the binary, which does not match its checksum, though it did in the old cache. */
  lemma UnverifiedBinary(hash: Hash, sum: string) returns (fs: Fs, platforms: seq<string>, f: Faults)
    requires ParseSum(sum) == Some(hash("whole")) && hash("part") != hash("whole")
    ensures TmpDir !in fs && CacheDir in fs && Verified(hash, fs[CacheDir], "lrc-a")
    ensures |f.fetches| == |platforms| && Updating(hash, fs, platforms, f).1.Updated?
    ensures var fs' := Updating(hash, fs, platforms, f).0;
      CacheDir in fs' && "lrc-a" in fs'[CacheDir] && Listed("lrc-a") && !Verified(hash, fs'[CacheDir], "lrc-a")
  {
    var cache := map["lrc-a.sha256" := sum, "lrc-a" := "whole"];
    fs, platforms := map[CacheDir := cache], ["a", "b"];
    f := Faults(false, [Fetch(Complete(sum), true, CopyBroken("part"), NotStarted),
                        Fetch(Complete(sum), false, Copied, Complete("whole"))],
                NotStarted, false, {}, None, false, false, false, false, None, None);
    var d := map["lrc-a.sha256" := sum, "lrc-a" := "part", "lrc-b.sha256" := sum, "lrc-b" := "whole"];
    FillTwo(hash, cache, sum, platforms, f.fetches, d);
    assert Versioned(d, f) == d;
    BrokenAndWhole(hash, sum, cache, d, f);
    SwapSucceeds(fs[TmpDir := d], f);
    UpdateInstalls(hash, fs, platforms, f);
  }

  /** Without a fault the swap succeeds. */
  lemma SwapSucceeds(fs: Fs, f: Faults)
    requires TmpDir in fs && f.oldLeft == None && !f.statFails && !f.renameOutFails && !f.renameInFails
    ensures Swap(fs, f).1
  {
  }

  class Cache {
    var fs: Fs
    const platforms: seq<string>

    constructor (fs: Fs, platforms: seq<string>)
      ensures this.fs == fs && this.platforms == platforms
    {
      this.fs, this.platforms := fs, platforms;
    }

    /** Downloads, verifies and swaps. */
    method Update(hash: Hash, f: Faults) returns (r: Outcome)
      requires TmpDir !in fs && |f.fetches| == |platforms|
      modifies this
      ensures (fs, r) == Updating(hash, old(fs), platforms, f)
    {
      if f.mkdirFails {
        return NoTempDir;
      }
      fs := fs[TmpDir := map[]];
      var downloaded := Download(hash, f);
      assert fs == old(fs)[TmpDir := Fill(hash, Cached(old(fs)), platforms, f.fetches).0];
      if |downloaded| == 0 {
        DropTemp(f);
        return NothingDownloaded;
      }
      FetchVersion(f);
      assert fs == old(fs)[TmpDir := Prepared(hash, Cached(old(fs)), platforms, f).0];
      var bad := VerifyAll(hash, fs[TmpDir], downloaded, f);
      if bad.Some? {
        DropTemp(f);
        return BadChecksum(bad.value);
      }
      var ok := SwapDirs(f);
      DropTemp(f);
      return if ok then Updated else SwapFailed;
    }

    /** The optional version file; if its download fails, what there is of it is removed. */
    method FetchVersion(f: Faults)
      requires TmpDir in fs
      modifies this
      ensures fs == old(fs)[TmpDir := Versioned(old(fs)[TmpDir], f)]
    {
      fs := fs[TmpDir := Put(fs[TmpDir], VERSION, Received(f.version))];
      if !f.version.Complete? && !f.versionStays {
        fs := fs[TmpDir := fs[TmpDir] - {VERSION}];
      }
    }

    /** The first recorded binary that cannot be read or does not match. */
    method VerifyAll(hash: Hash, tmp: Dir, downloaded: seq<string>, f: Faults) returns (bad: Option<string>)
      ensures bad == FirstBad(hash, tmp, downloaded, f)
    {
      assert downloaded[0..] == downloaded;
      for i := 0 to |downloaded|
        invariant FirstBad(hash, tmp, downloaded, f) == FirstBad(hash, tmp, downloaded[i..], f)
      {
        if !Passes(hash, tmp, downloaded[i], f) {
          return Some(downloaded[i]);
        }
        assert downloaded[i..][1..] == downloaded[i + 1..];
      }
      return None;
    }

    /** Removes the temporary directory if it is still there. */
    method DropTemp(f: Faults)
      modifies this
      ensures fs == RemoveAll(old(fs), TmpDir, f.tmpLeft)
    {
      fs := RemoveAll(fs, TmpDir, f.tmpLeft);
    }

    /** Platform by platform; one that fails is skipped, with whatever it left behind. */
    method Download(hash: Hash, f: Faults) returns (downloaded: seq<string>)
      requires |f.fetches| == |platforms| && TmpDir in fs && fs[TmpDir] == map[]
      modifies this
      ensures var (tmp, done) := Fill(hash, Cached(old(fs)), platforms, f.fetches);
        fs == old(fs)[TmpDir := tmp] && downloaded == done
    {
      downloaded := [];
      ghost var cache := Cached(fs);
      for i := 0 to |platforms|
        invariant fs == old(fs)[TmpDir := Fill(hash, cache, platforms[..i], f.fetches[..i]).0]
        invariant downloaded == Fill(hash, cache, platforms[..i], f.fetches[..i]).1
      {
        FillSnoc(hash, cache, platforms, f.fetches, i);
        var ok := DownloadFiles(hash, BinName(platforms[i]), f.fetches[i]);
        if ok {
          downloaded := downloaded + [BinName(platforms[i])];
        }
      }
      assert platforms[..|platforms|] == platforms && f.fetches[..|platforms|] == f.fetches;
    }

    /** The checksum file first; then the local binary if it is the same one, else the download. */
    method DownloadFiles(hash: Hash, name: string, f: Fetch) returns (ok: bool)
      requires TmpDir in fs
      modifies this
      ensures var (d, done) := Fetched(hash, old(fs)[TmpDir], Cached(old(fs)), name, f);
        fs == old(fs)[TmpDir := d] && ok == done
    {
      fs := fs[TmpDir := Put(fs[TmpDir], ShaName(name), Received(f.sha))];
      if !f.sha.Complete? {
        return false;
      }
      if f.localReadable && CacheDir in fs && Reusable(hash, Some(fs[CacheDir]), name, f.sha.content) {
        fs := fs[TmpDir := Put(fs[TmpDir], name, CopyResult(f.copy, fs[CacheDir][name]))];
        return f.copy.Copied?;
      }
      fs := fs[TmpDir := Put(fs[TmpDir], name, Received(f.bin))];
      return f.bin.Complete?;
    }

    /** Out with the old directory, in with the new, remove the old; back with the old if the new fails. */
    method SwapDirs(f: Faults) returns (ok: bool)
      modifies this
      ensures fs == SwapEnd(old(fs), f) && ok == Swap(old(fs), f).1
    {
      fs := RemoveAll(fs, OldDir, f.oldLeft);
      if CacheDir in fs && !f.statFails {
        var s, moved := RenameDir(CacheDir, OldDir, f.renameOutFails);
        if !moved {
          return false;
        }
      }
      var s, moved := RenameDir(TmpDir, CacheDir, f.renameInFails);
      if !moved {
        s, moved := RenameDir(OldDir, CacheDir, f.renameBackFails);
        return false;
      }
      fs := RemoveAll(fs, OldDir, f.oldLeftAfter);
      return true;
    }

    method RenameDir(from: Place, to: Place, fails: bool) returns (s: Fs, moved: bool)
      modifies this
      ensures (fs, moved) == Rename(old(fs), from, to, fails) && s == fs
    {
      if fails || from !in fs || to in fs {
        return fs, false;
      }
      fs := (fs - {from})[to := fs[from]];
      return fs, true;
    }
  }
}
