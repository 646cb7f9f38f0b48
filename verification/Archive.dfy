/**
 The WAL archive's keys and lookups: internal/wal/archive/archive.go. SHA-256 is a
 parameter `hash`; a key ends in the digest of the segment's source bytes.
 */
module Archive {
  import opened Common
  import opened Text
  import opened Wal
  import Scan
  import Paths

  type Store = map<string, Bytes>

  // -------------------------------------------------------------- file names

  /** IsSegmentName. */
  predicate IsSegmentName(s: string) { |s| == 24 && IsHex(s) }

  /** IsArchivableFile: the four forms PostgreSQL hands to archive_command. */
  predicate IsArchivable(name: string) {
    || IsSegmentName(name)
    || (&& |name| == 24 + 1 + 8 + |".backup"| && name[24] == '.' && name[33] == '.'
        && HasSuffix(name, ".backup") && IsHex(name[..24]) && IsHex(name[25..33]))
    || (|name| == 24 + |".partial"| && HasSuffix(name, ".partial") && IsHex(name[..24]))
    || (|name| == 8 + |".history"| && HasSuffix(name, ".history") && IsHex(name[..8]))
  }

  /** Every file PostgreSQL archives is archivable: segments, backup labels, partial segments, timeline histories. */
  lemma {:induction false} ArchivableForms(seg: string, offset: string, tli: string)
    requires IsHex(seg) && |seg| == 24 && IsHex(offset) && |offset| == 8 && IsHex(tli) && |tli| == 8
    ensures IsArchivable(seg) && IsArchivable(seg + ".partial") && IsArchivable(tli + ".history")
    ensures IsArchivable(seg + "." + offset + ".backup")
  {
    var b, p, h := seg + "." + offset + ".backup", seg + ".partial", tli + ".history";
    assert b[..24] == seg && b[25..33] == offset && b[33..] == ".backup";
    assert p[..24] == seg && h[..8] == tli;
  }

  /** Archivable names never contain the separator of the digest suffix. */
  lemma {:induction false} ArchivableHasNoDash(name: string)
    requires IsArchivable(name)
    ensures '-' !in name
  {
    ArchivableHasNo(name, '-');
  }

  /** Nor any other character outside the digits and the suffixes. */
  lemma {:induction false} ArchivableHasNo(name: string, c: char)
    requires IsArchivable(name) && !IsHexDigit(c) && c !in ".backup" && c !in ".partial" && c !in ".history"
    ensures c !in name
  {
    if IsSegmentName(name) {
    } else if |name| == 40 {
      Pieces(name, 24, 25, 33, ".backup", c);
    } else if |name| == 32 {
      assert name == name[..24] + name[24..];
      assert name[24..] == ".partial";
    } else {
      assert name == name[..8] + name[8..];
      assert name[8..] == ".history";
    }
  }

  lemma {:induction false} Pieces(name: string, i: nat, j: nat, k: nat, suffix: string, c: char)
    requires i + 1 == j <= k && k + |suffix| == |name| && HasSuffix(name, suffix) && c !in suffix && !IsHexDigit(c) && c != '.'
    requires IsHex(name[..i]) && name[i] == '.' && IsHex(name[j..k])
    ensures c !in name
  {
    forall x | 0 <= x < |name|
      ensures name[x] != c
    {
      if x < i {
        assert name[x] == name[..i][x];
      } else if j <= x < k {
        assert name[x] == name[j..k][x - j];
      } else if k <= x {
        assert name[x] == name[k..][x - k];
      }
    }
  }

  // -------------------------------------------------------------------- keys

  function SegmentDir(tli: Timeline): (d: string)
    ensures |d| == 12
  {
    "wal/" + FixedHex(tli, 8)
  }

  function SegmentKeyPrefix(tli: Timeline, seg: string): string {
    SegmentDir(tli) + ("/" + seg + "-")
  }

  function SegmentKey(tli: Timeline, seg: string, digest: Digest): string {
    SegmentKeyPrefix(tli, seg) + HexEncode(digest)
  }

  /** Push's staging key. */
  function TmpKey(key: string, rnd: string): string { key + "." + rnd + ".tmp" }

  /** SegmentNameFromBasename. */
  function SegmentNameFromBasename(base: string): Option<string> {
    if |base| != 24 + 1 + 64 || base[24] != '-' then None else Some(base[..24])
  }

  /** The name is recovered from the basename of a committed key exactly when it is a WAL segment's. */
  lemma {:induction false} BasenameRoundTrip(seg: string, d: Digest)
    requires IsArchivable(seg)
    ensures SegmentNameFromBasename(seg + "-" + HexEncode(d)) == (if IsSegmentName(seg) then Some(seg) else None)
  {
    var base := seg + "-" + HexEncode(d);
    assert base[..|seg|] == seg;
  }

  /** A committed key carries its timeline, name and digest, each recoverable. */
  lemma {:induction false} SegmentKeyInjective(t: Timeline, seg: string, d: Digest, t': Timeline, seg': string, d': Digest)
    requires IsArchivable(seg) && IsArchivable(seg')
    requires SegmentKeyPrefix(t, seg) <= SegmentKey(t', seg', d')
    ensures t == t' && seg == seg'
    ensures SegmentKey(t, seg, d) == SegmentKey(t', seg', d') <==> d == d'
  {
    ArchivableHasNoDash(seg);
    ArchivableHasNoDash(seg');
    var hex := HexEncode(d');
    var s := SegmentKey(t', seg', d');
    assert s[..12] == SegmentDir(t') && s[..12] == SegmentDir(t);
    Pow16Eight();
    FixedHexOrder(t, t', 8);
    assert SegmentDir(t)[4..] == FixedHex(t, 8) && SegmentDir(t')[4..] == FixedHex(t', 8);
    DashSplit(seg, seg', hex, s);
    if SegmentKey(t, seg, d) == s {
      assert SegmentKey(t, seg, d)[|SegmentKeyPrefix(t, seg)|..] == HexEncode(d);
      assert s[|SegmentKeyPrefix(t, seg)|..] == hex;
      HexEncodeInjective(d, d');
    }
  }

  /** In `seg'-hex` the only dash follows seg'. */
  lemma {:induction false} DashSplit(seg: string, seg': string, hex: string, s: string)
    requires '-' !in seg && '-' !in seg' && IsHex(hex)
    requires |s| >= 13 && s[13..] == seg' + "-" + hex
    requires seg + "-" <= s[13..]
    ensures seg == seg'
  {
    assert !IsHexDigit('-');
    var r := s[13..];
    assert r[|seg|] == '-' && r[|seg'|] == '-';
    assert forall i :: 0 <= i < |seg'| ==> r[i] == seg'[i];
    assert forall i :: |seg'| < i < |r| ==> r[i] == hex[i - |seg'| - 1];
    assert |seg| == |seg'|;
    assert seg == r[..|seg|] && seg' == r[..|seg'|];
  }

  /** A committed key never looks like a staging key. */
  lemma {:induction false} CommittedIsNotTmp(tli: Timeline, seg: string, d: Digest)
    ensures !HasSuffix(SegmentKey(tli, seg, d), ".tmp")
  {
    var s := SegmentKey(tli, seg, d);
    var c := HexEncode(d)[63];
    assert s[|s| - 1] == c && IsHexDigit(c) && !IsHexDigit('p');
    assert s[|s| - 4..][3] == c && ".tmp"[3] == 'p';
  }

  lemma {:induction false} TmpKeyIsTmp(key: string, rnd: string)
    ensures HasSuffix(TmpKey(key, rnd), ".tmp")
  {
  }

  /** Staging keys with different random parts differ. */
  lemma {:induction false} TmpKeysDiffer(key: string, rnd: string, key': string, rnd': string)
    requires |rnd| == |rnd'| && TmpKey(key, rnd) == TmpKey(key', rnd')
    ensures rnd == rnd'
  {
    var s, t := TmpKey(key, rnd), TmpKey(key', rnd');
    assert s[|s| - |rnd| - 4..|s| - 4] == rnd && t[|t| - |rnd'| - 4..|t| - 4] == rnd';
  }

  // ------------------------------------------------------------- FindSegment

  datatype Lookup = Missing | Found(key: string) | Mismatch | ListFailed

  /** One listed path counts as the segment. */
  predicate IsMatch(path: string, tli: Timeline, seg: string) {
    HasPrefix(path, SegmentKeyPrefix(tli, seg)) && !HasSuffix(path, ".tmp")
  }

  function Matches(paths: seq<string>, tli: Timeline, seg: string): seq<string> {
    if paths == [] then []
    else
      var rest, p := Matches(paths[..|paths| - 1], tli, seg), paths[|paths| - 1];
      if IsMatch(p, tli, seg) then rest + [p] else rest
  }

  /** What FindSegment answers for a directory listing. */
  function LookupIn(paths: seq<string>, tli: Timeline, seg: string): Lookup {
    var m := Matches(paths, tli, seg);
    if |m| == 0 then Missing else if |m| == 1 then Found(m[0]) else Mismatch
  }

  /** What Backend.List reported: paths, an error that says "not found", or another one. */
  datatype Listing = Listed(paths: seq<string>) | NotFound | ListError

  /** FindSegment. A listing that ends in "not found" counts as an empty one. */
  method FindSegment(listing: Listing, tli: Timeline, seg: string) returns (r: Lookup)
    ensures listing.ListError? ==> r == ListFailed
    ensures listing.NotFound? ==> r == Missing
    ensures listing.Listed? ==> r == LookupIn(listing.paths, tli, seg)
  {
    if listing.NotFound? {
      return Missing;
    }
    if listing.ListError? {
      return ListFailed;
    }
    var infos, matches := listing.paths, [];
    for i := 0 to |infos|
      invariant matches == Matches(infos[..i], tli, seg)
    {
      assert infos[..i + 1][..i] == infos[..i];
      if HasPrefix(infos[i], SegmentKeyPrefix(tli, seg)) && !HasSuffix(infos[i], ".tmp") {
        matches := matches + [infos[i]];
      }
    }
    assert infos[..|infos|] == infos;
    match |matches|
    case 0 => r := Missing;
    case 1 => r := Found(matches[0]);
    case _ => r := Mismatch;
  }

  /** The POSIX backend leaves files it is staging out of a listing. */
  predicate Visible(path: string) { !Scan.Occurs(Paths.Base(path), ".pgsafe-tmp") }

  function VisibleOf(names: seq<string>): seq<string> {
    if names == [] then []
    else
      var rest, p := VisibleOf(names[..|names| - 1]), names[|names| - 1];
      if Visible(p) then rest + [p] else rest
  }

  /**
   The walk of the POSIX List over one directory: the names come from a readdir, and each is looked
   up afterwards, the i-th one i instants later. `there` says which files exist when. One name that
   has gone in between turns the whole listing into "not found".
   */
  method ListDir(names: seq<string>, there: (nat, string) -> bool, now: nat) returns (r: Listing)
    ensures !r.ListError?
    ensures r.NotFound? <==> exists i :: 0 <= i < |names| && Visible(names[i]) && !there(now + i, names[i])
    ensures r.Listed? ==> r.paths == VisibleOf(names)
  {
    var out := [];
    for i := 0 to |names|
      invariant out == VisibleOf(names[..i])
      invariant forall j :: 0 <= j < i && Visible(names[j]) ==> there(now + j, names[j])
    {
      assert names[..i + 1][..i] == names[..i];
      if Visible(names[i]) {
        if !there(now + i, names[i]) {
          return NotFound;
        }
        out := out + [names[i]];
      }
    }
    assert names[..|names|] == names;
    r := Listed(out);
  }

  lemma {:induction false} MatchesAre(paths: seq<string>, tli: Timeline, seg: string)
    requires Distinct(paths)
    ensures Distinct(Matches(paths, tli, seg))
    ensures forall p :: p in Matches(paths, tli, seg) <==> p in paths && IsMatch(p, tli, seg)
  {
    if paths != [] {
      var n := |paths| - 1;
      MatchesAre(paths[..n], tli, seg);
      assert paths == paths[..n] + [paths[n]];
      assert paths[n] !in paths[..n];
    }
  }

  /** The listing shows two copies of the segment. */
  predicate TwoMatches(paths: seq<string>, tli: Timeline, seg: string) {
    exists p, q :: p in paths && q in paths && p != q && IsMatch(p, tli, seg) && IsMatch(q, tli, seg)
  }

  /**
   The three answers, for a listing without repeats: nothing matches; the key is the one
   and only match; or two different matches exist.
   */
  lemma {:induction false} LookupMeans(paths: seq<string>, tli: Timeline, seg: string)
    requires Distinct(paths)
    ensures LookupIn(paths, tli, seg).Missing? <==> forall p :: p in paths ==> !IsMatch(p, tli, seg)
    ensures forall k :: LookupIn(paths, tli, seg) == Found(k) <==>
              k in paths && IsMatch(k, tli, seg) && forall p :: p in paths && IsMatch(p, tli, seg) ==> p == k
    ensures LookupIn(paths, tli, seg).Mismatch? <==> TwoMatches(paths, tli, seg)
  {
    MatchesAre(paths, tli, seg);
    var m := Matches(paths, tli, seg);
    forall p | p in paths && IsMatch(p, tli, seg)
      ensures p in m
    {
    }
    if |m| == 1 {
      assert m[0] in m;
      assert forall p :: p in m ==> p == m[0];
    } else if |m| >= 2 {
      assert m[0] in m && m[1] in m && m[0] != m[1];
    }
  }

  datatype Fetched = Content(bytes: Bytes) | NotArchived | Diverged | ReadError

  /** Get: a lookup, then a read that may fail. */
  method Get(listing: Listing, store: Store, readFails: bool, tli: Timeline, seg: string)
    returns (r: Fetched)
    requires listing.Listed? ==> Distinct(listing.paths)
    ensures r.Content? ==>
              exists k :: k in store && store[k] == r.bytes && listing.Listed? && k in listing.paths && IsMatch(k, tli, seg) &&
                (forall p :: p in listing.paths && IsMatch(p, tli, seg) ==> p == k)
    ensures r.Diverged? <==> listing.Listed? && TwoMatches(listing.paths, tli, seg)
    ensures r.NotArchived? <==>
              listing.NotFound? || (listing.Listed? && forall p :: p in listing.paths ==> !IsMatch(p, tli, seg))
  {
    var f := FindSegment(listing, tli, seg);
    if listing.Listed? {
      LookupMeans(listing.paths, tli, seg);
    }
    match f
    case Missing => r := NotArchived;
    case Mismatch => r := Diverged;
    case ListFailed => r := ReadError;
    case Found(key) =>
      if readFails || key !in store {
        r := ReadError;
      } else {
        r := Content(store[key]);
      }
  }
}
