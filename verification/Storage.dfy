// The two drivers of the file store: one keeps content by the digest of its
// sealed form, the other by name. Both write a temporary file first, then move
// it into place, then write a metadata file, and can be cut short in between.
module Storage {
  import opened Wrappers
  import opened Crypt

  // A stand-in for SHA-256 in hexadecimal: only injectivity and the fact that it
  // is never empty are used.
  function Sum(sealed: Bytes): string { "#" + seq(|sealed|, k requires 0 <= k < |sealed| => sealed[k] as char) }

  lemma SumInjective(a: Bytes, b: Bytes)
    requires Sum(a) == Sum(b)
    ensures a == b
  {
    assert |a| == |Sum(a)| - 1 == |b|;
    forall k | 0 <= k < |a| ensures a[k] == b[k] {
      assert Sum(a)[k + 1] == a[k] as char && Sum(b)[k + 1] == b[k] as char;
    }
  }

  type Extend = map<string, string>

  datatype Meta = Meta(digest: string, extend: Extend)

  // A metadata file that was cut short while being written cannot be decoded.
  datatype MetaFile = Readable(meta: Meta) | Garbled

  // Where a Put is cut short: creating or filling the temporary file, moving it,
  // before or while writing the metadata.
  datatype Fault = NoFault | AtCreate | AtCopy | AtMove | BeforeMeta | InMeta

  datatype Failure = Missing | IO

  // --- The driver that stores by digest ---

  datatype Cas = Cas(blobs: map<string, Bytes>, metadata: map<string, MetaFile>, temps: map<string, Bytes>)

  // One Put: the name, the metadata, the content, the temporary file's name and
  // where it is cut short.
  datatype Put = ToPut(name: string, extend: Extend, content: Bytes, temp: string, fault: Fault)

  function WriteMeta(metadata: map<string, MetaFile>, p: Put, digest: string): map<string, MetaFile> {
    match p.fault
    case BeforeMeta => metadata
    case InMeta => metadata[p.name := Garbled]
    case _ => metadata[p.name := Readable(Meta(digest, p.extend))]
  }

  predicate Cut(fault: Fault) { fault == BeforeMeta || fault == InMeta }

  function CasPut(s: Cas, ks: Keystream, p: Put): (Cas, Result<string, Failure>) {
    if p.fault == AtCreate || p.fault == AtCopy then (s.(temps := s.temps - {p.temp}), Err(IO))
    else
      var sealed := Seal(ks, p.content);
      var digest := Sum(sealed);
      if digest !in s.blobs && p.fault == AtMove then (s.(temps := s.temps[p.temp := sealed]), Err(IO))
      else
        var blobs := if digest in s.blobs then s.blobs else s.blobs[digest := sealed];
        (Cas(blobs, WriteMeta(s.metadata, p, digest), s.temps - {p.temp}), if Cut(p.fault) then Err(IO) else Ok(digest))
  }

  // What a name leads to: its metadata, with the digest in it, and its content.
  datatype Entry = Entry(extend: Extend, content: Bytes)

  function CasGet(s: Cas, ks: Keystream, name: string): Result<Entry, Failure> {
    if name !in s.metadata then Err(Missing)
    else match s.metadata[name]
      case Garbled => Err(IO)
      case Readable(m) =>
        if m.digest !in s.blobs then Err(Missing)
        else Ok(Entry(m.extend["digest" := m.digest], Xor(ks, 0, s.blobs[m.digest])))
  }

  // --- The driver that stores by name ---

  datatype Fs = Fs(data: map<string, Bytes>, metadata: map<string, MetaFile>, temps: map<string, Bytes>)

  predicate Deletes(extend: Extend) { "deleted" in extend && extend["deleted"] == "true" }

  function FsPut(s: Fs, ks: Keystream, p: Put): (Fs, Result<string, Failure>) {
    if Deletes(p.extend) then
      if p.name !in s.data then (s, Err(Missing))
      else (s.(data := s.data - {p.name}, metadata := WriteMeta(s.metadata, p, "")), if Cut(p.fault) then Err(IO)
        else Ok(""))
    else if p.fault == AtCreate || p.fault == AtCopy then (s.(temps := s.temps - {p.temp}), Err(IO))
    else
      var sealed := Seal(ks, p.content);
      if p.fault == AtMove then (s.(temps := s.temps[p.temp := sealed]), Err(IO))
      else (Fs(s.data[p.name := sealed], WriteMeta(s.metadata, p, Sum(sealed)), s.temps - {p.temp}),
            if Cut(p.fault) then Err(IO) else Ok(Sum(sealed)))
  }

  function FsGet(s: Fs, ks: Keystream, name: string): Result<Entry, Failure> {
    if name !in s.metadata then Err(Missing)
    else match s.metadata[name]
      case Garbled => Err(IO)
      case Readable(m) =>
        if name !in s.data then Err(Missing)
        else Ok(Entry(m.extend["digest" := m.digest], Xor(ks, 0, s.data[name])))
  }

  // --- Runs ---

  function CasRun(ks: Keystream, puts: seq<Put>): Cas {
    if puts == [] then Cas(map[], map[], map[])
    else CasPut(CasRun(ks, puts[..|puts|-1]), ks, puts[|puts|-1]).0
  }

  function FsRun(ks: Keystream, puts: seq<Put>): Fs {
    if puts == [] then Fs(map[], map[], map[])
    else FsPut(FsRun(ks, puts[..|puts|-1]), ks, puts[|puts|-1]).0
  }

  // The store both drivers stand for: the last content and metadata put under a name.
  type Store = map<string, Entry>

  function Stored(ks: Keystream, p: Put): Entry { Entry(p.extend["digest" := Sum(Seal(ks, p.content))], p.content) }

  function StoreRun(ks: Keystream, puts: seq<Put>): Store {
    if puts == [] then map[]
    else StoreRun(ks, puts[..|puts|-1])[puts[|puts|-1].name := Stored(ks, puts[|puts|-1])]
  }

  function Lookup(store: Store, name: string): Result<Entry, Failure> {
    if name in store then Ok(store[name]) else Err(Missing)
  }

  // --- What the digest store keeps, whatever is cut short ---

  ghost predicate CasSound(s: Cas) {
    && (forall d :: d in s.blobs ==> d == Sum(s.blobs[d]))
    && (forall n :: n in s.metadata && s.metadata[n].Readable? ==> s.metadata[n].meta.digest in s.blobs)
  }

  lemma CasPutSound(s: Cas, ks: Keystream, p: Put)
    requires CasSound(s)
    ensures CasSound(CasPut(s, ks, p).0)
    ensures forall d :: d in s.blobs ==> d in CasPut(s, ks, p).0.blobs && CasPut(s, ks, p).0.blobs[d] == s.blobs[d]
  {
    hide Sum, Seal;
  }

  lemma {:induction false} CasRunSound(ks: Keystream, puts: seq<Put>)
    ensures CasSound(CasRun(ks, puts))
    decreases |puts|
  {
    if puts != [] {
      CasRunSound(ks, puts[..|puts|-1]);
      CasPutSound(CasRun(ks, puts[..|puts|-1]), ks, puts[|puts|-1]);
    }
  }

  // A blob, once written, is never changed or removed by later Puts.
  lemma {:induction false} BlobsAreImmutable(ks: Keystream, before: seq<Put>, later: seq<Put>, d: string)
    requires d in CasRun(ks, before).blobs
    ensures d in CasRun(ks, before + later).blobs
    ensures CasRun(ks, before + later).blobs[d] == CasRun(ks, before).blobs[d]
    decreases |later|
  {
    if later == [] {
      assert before + later == before;
    } else {
      assert (before + later)[..|before + later|-1] == before + later[..|later|-1];
      BlobsAreImmutable(ks, before, later[..|later|-1], d);
      CasRunSound(ks, before + later[..|later|-1]);
      CasPutSound(CasRun(ks, before + later[..|later|-1]), ks, later[|later|-1]);
    }
  }

  // Every name that can be read at all has content matching its digest.
  predicate Matches(ks: Keystream, e: Entry) {
    "digest" in e.extend && e.extend["digest"] == Sum(Seal(ks, e.content))
  }

  lemma CasGetMatches(s: Cas, ks: Keystream, name: string)
    requires CasSound(s)
    ensures CasGet(s, ks, name).Ok? ==> Matches(ks, CasGet(s, ks, name).value)
  {
    hide Sum;
    if CasGet(s, ks, name).Ok? {
      var d := s.metadata[name].meta.digest;
      XorTwice(ks, 0, s.blobs[d]);
    }
  }

  // A Put of the digest store is all or nothing, except that a metadata file cut
  // short loses the name; other names never notice.
  lemma CasPutAtomic(s: Cas, ks: Keystream, p: Put, name: string)
    requires CasSound(s)
    ensures var (s', r) := CasPut(s, ks, p);
      if name != p.name then CasGet(s', ks, name) == CasGet(s, ks, name)
      else if r.Ok? then CasGet(s', ks, name) == Ok(Stored(ks, p)) && r.value == Sum(Seal(ks, p.content))
      else CasGet(s', ks, name) == if p.fault == InMeta then Err(IO) else CasGet(s, ks, name)
  {
    hide Sum;
    XorTwice(ks, 0, p.content);
    var d := Sum(Seal(ks, p.content));
    if d in s.blobs {
      assert s.blobs[d] == Seal(ks, p.content) by { SumInjective(s.blobs[d], Seal(ks, p.content)); }
    }
    CasPutSound(s, ks, p);
  }

  // --- The name store under faults ---

  lemma FsPutFrame(s: Fs, ks: Keystream, p: Put, name: string)
    requires name != p.name
    ensures FsGet(FsPut(s, ks, p).0, ks, name) == FsGet(s, ks, name)
  {
  }

  lemma FsPutReads(s: Fs, ks: Keystream, p: Put)
    requires !Deletes(p.extend)
    ensures var (s', r) := FsPut(s, ks, p);
      if r.Ok? then FsGet(s', ks, p.name) == Ok(Stored(ks, p)) && r.value == Sum(Seal(ks, p.content))
      else if p.fault == InMeta then FsGet(s', ks, p.name) == Err(IO)
      else if p.fault == BeforeMeta then
        FsGet(s', ks, p.name) ==
          if p.name in s.metadata && s.metadata[p.name].Readable?
          then Ok(Entry(s.metadata[p.name].meta.extend["digest" := s.metadata[p.name].meta.digest], p.content))
          else if p.name in s.metadata then Err(IO) else Err(Missing)
      else FsGet(s', ks, p.name) == FsGet(s, ks, p.name)
  {
    hide Sum;
    XorTwice(ks, 0, p.content);
  }

  // A Put cut short between moving the data and writing the metadata leaves new
  // content under an old digest, unless nothing was readable or nothing changed.
  lemma FsTornIffChanged(s: Fs, ks: Keystream, p: Put)
    requires !Deletes(p.extend) && p.fault == BeforeMeta
    ensures var s' := FsPut(s, ks, p).0;
      (FsGet(s', ks, p.name).Ok? && !Matches(ks, FsGet(s', ks, p.name).value))
      <==>
      (p.name in s.metadata && s.metadata[p.name].Readable? &&
        s.metadata[p.name].meta.digest != Sum(Seal(ks, p.content)))
  {
    hide Sum;
    FsPutReads(s, ks, p);
  }

  // A put with deletion removes the data of a name that has some: nothing can be
  // read under it any more. Of a name without data it is refused.
  lemma FsDeleteReads(s: Fs, ks: Keystream, p: Put)
    requires "deleted" in p.extend && p.extend["deleted"] == "true"
    ensures var (s', r) := FsPut(s, ks, p);
      && p.name !in s'.data && s'.temps == s.temps
      && (p.name !in s.data ==> s' == s && r == Err(Missing))
      && (p.name in s.data ==> FsGet(s', ks, p.name).Err? && (r == Ok("") <==> p.fault !in {BeforeMeta, InMeta}))
  {
  }

  // --- What is left in the temporary directory ---

  // A put leaves its temporary file behind exactly if it is cut short between
  // filling and moving it, which the digest store only does for new content.
  lemma CasTempLeft(s: Cas, ks: Keystream, p: Put)
    ensures var (s', r) := CasPut(s, ks, p);
      && (p.temp in s'.temps <==> p.fault == AtMove && Sum(Seal(ks, p.content)) !in s.blobs)
      && (p.temp in s'.temps ==> s'.temps[p.temp] == Seal(ks, p.content))
      && s'.temps - {p.temp} == s.temps - {p.temp} && (r.Err? ==> r.error == IO)
      && (r.Err? <==> p.fault in {AtCreate, AtCopy, BeforeMeta, InMeta} || p.temp in s'.temps)
  {
    hide Sum, Seal;
  }

  lemma FsTempLeft(s: Fs, ks: Keystream, p: Put)
    requires !Deletes(p.extend)
    ensures var (s', r) := FsPut(s, ks, p);
      && (p.temp in s'.temps <==> p.fault == AtMove)
      && (p.temp in s'.temps ==> s'.temps[p.temp] == Seal(ks, p.content))
      && s'.temps - {p.temp} == s.temps - {p.temp} && (r.Err? ==> r.error == IO) && (r.Err? <==> p.fault != NoFault)
  {
    hide Sum, Seal;
  }

  // --- Both drivers are one store ---

  predicate Plain(p: Put) { p.fault == NoFault && !Deletes(p.extend) }

  // Without faults and deletions both drivers answer like a map from names to
  // contents, and hand out the same digests.
  lemma {:induction false} DriversRefineStore(ks: Keystream, puts: seq<Put>, name: string)
    requires forall k :: 0 <= k < |puts| ==> Plain(puts[k])
    ensures CasGet(CasRun(ks, puts), ks, name) == Lookup(StoreRun(ks, puts), name)
    ensures FsGet(FsRun(ks, puts), ks, name) == Lookup(StoreRun(ks, puts), name)
    decreases |puts|
  {
    hide Sum, Seal;
    if puts != [] {
      hide CasPut, FsPut, CasGet, FsGet;
      var front, p := puts[..|puts|-1], puts[|puts|-1];
      DriversRefineStore(ks, front, name);
      CasRunSound(ks, front);
      CasPutAtomic(CasRun(ks, front), ks, p, name);
      SameDigest(CasRun(ks, front), FsRun(ks, front), ks, p);
      if name == p.name { FsPutReads(FsRun(ks, front), ks, p); } else { FsPutFrame(FsRun(ks, front), ks, p, name); }
    }
  }

  // The digest returned is the same in both drivers exactly when the Put does
  // not delete, and tells contents apart.
  lemma SameDigest(c: Cas, f: Fs, ks: Keystream, p: Put)
    requires p.fault == NoFault
    ensures CasPut(c, ks, p).1 == FsPut(f, ks, p).1 <==> !Deletes(p.extend)
    ensures CasPut(c, ks, p).1 == Ok(Sum(Seal(ks, p.content)))
  {
    assert Sum(Seal(ks, p.content)) != "";
    hide Sum;
  }

  lemma DigestTellsContentsApart(ks: Keystream, a: Bytes, b: Bytes)
    ensures Sum(Seal(ks, a)) == Sum(Seal(ks, b)) <==> a == b
  {
    hide Sum;
    if Sum(Seal(ks, a)) == Sum(Seal(ks, b)) {
      SumInjective(Seal(ks, a), Seal(ks, b));
      SealInjective(ks, a, b);
    }
  }

  // --- The drivers as objects ---

  class CasStore {
    const ks: Keystream
    var blobs: map<string, Bytes>
    var metadata: map<string, MetaFile>
    var temps: map<string, Bytes>

    function State(): Cas reads this { Cas(blobs, metadata, temps) }

    constructor (ks: Keystream)
      ensures this.ks == ks && State() == CasRun(ks, [])
    {
      this.ks, blobs, metadata, temps := ks, map[], map[], map[];
    }

    // The content arrives in chunks, each encrypted as it is copied.
    method Put(name: string, extend: Extend, chunks: seq<Bytes>, temp: string, fault: Fault)
      returns (r: Result<string, Failure>)
      modifies this
      ensures (State(), r) == CasPut(old(State()), ks, ToPut(name, extend, Concat(chunks), temp, fault))
    {
      if fault == AtCreate || fault == AtCopy {
        temps := temps - {temp};
        return Err(IO);
      }
      var sealed := EncryptChunks(ks, chunks);
      temps := temps[temp := sealed];
      var digest := Sum(sealed);
      if digest !in blobs {
        if fault == AtMove { return Err(IO); }
        blobs := blobs[digest := temps[temp]];
      }
      temps := temps - {temp};
      assert temps == old(temps) - {temp};
      r := Err(IO);
      if fault == BeforeMeta { return; }
      if fault == InMeta {
        metadata := metadata[name := Garbled];
        return;
      }
      metadata := metadata[name := Readable(Meta(digest, extend))];
      r := Ok(digest);
    }

    // The content comes as a reader that decrypts the blob from its start.
    method Get(name: string) returns (r: Result<Extend, Failure>, reader: DecryptReader?)
      ensures match r
        case Err(e) => CasGet(State(), ks, name) == Err(e)
        case Ok(extend) =>
          && reader != null && fresh(reader) && reader.pos == 0 && reader.ks == ks
          && CasGet(State(), ks, name) == Ok(Entry(extend, Xor(ks, 0, reader.source)))
    {
      reader := null;
      if name !in metadata { return Err(Missing), null; }
      if metadata[name].Garbled? { return Err(IO), null; }
      var m := metadata[name].meta;
      if m.digest !in blobs { return Err(Missing), null; }
      reader := new DecryptReader(ks, blobs[m.digest]);
      r := Ok(m.extend["digest" := m.digest]);
    }
  }

  class FsStore {
    const ks: Keystream
    var data: map<string, Bytes>
    var metadata: map<string, MetaFile>
    var temps: map<string, Bytes>

    function State(): Fs reads this { Fs(data, metadata, temps) }

    constructor (ks: Keystream)
      ensures this.ks == ks && State() == FsRun(ks, [])
    {
      this.ks, data, metadata, temps := ks, map[], map[], map[];
    }

    method StorageData(name: string, chunks: seq<Bytes>, temp: string, fault: Fault)
        returns (r: Result<string, Failure>)
      modifies this`data, this`temps
      ensures var sealed := Seal(ks, Concat(chunks));
        if fault == AtCreate || fault == AtCopy then r == Err(IO) && data == old(data) && temps == old(temps) - {temp}
        else if fault == AtMove then r == Err(IO) && data == old(data) && temps == old(temps)[temp := sealed]
        else r == Ok(Sum(sealed)) && data == old(data)[name := sealed] && temps == old(temps) - {temp}
    {
      if fault == AtCreate || fault == AtCopy {
        temps := temps - {temp};
        return Err(IO);
      }
      var sealed := EncryptChunks(ks, chunks);
      temps := temps[temp := sealed];
      if fault == AtMove { return Err(IO); }
      data, temps := data[name := temps[temp]], temps - {temp};
      r := Ok(Sum(sealed));
    }

    method Put(name: string, extend: Extend, chunks: seq<Bytes>, temp: string, fault: Fault)
      returns (r: Result<string, Failure>)
      modifies this
      ensures (State(), r) == FsPut(old(State()), ks, ToPut(name, extend, Concat(chunks), temp, fault))
    {
      var digest := "";
      if Deletes(extend) {
        if name !in data { return Err(Missing); }
        data := data - {name};
      } else {
        var stored := StorageData(name, chunks, temp, fault);
        if stored.Err? { return stored; }
        digest := stored.value;
      }
      r := Err(IO);
      if fault == BeforeMeta { return; }
      if fault == InMeta {
        metadata := metadata[name := Garbled];
        return;
      }
      metadata := metadata[name := Readable(Meta(digest, extend))];
      r := Ok(digest);
    }

    method Get(name: string) returns (r: Result<Extend, Failure>, reader: DecryptReader?)
      ensures match r
        case Err(e) => FsGet(State(), ks, name) == Err(e)
        case Ok(extend) =>
          && reader != null && fresh(reader) && reader.pos == 0 && reader.ks == ks
          && FsGet(State(), ks, name) == Ok(Entry(extend, Xor(ks, 0, reader.source)))
    {
      reader := null;
      if name !in metadata { return Err(Missing), null; }
      if metadata[name].Garbled? { return Err(IO), null; }
      var m := metadata[name].meta;
      if name !in data { return Err(Missing), null; }
      reader := new DecryptReader(ks, data[name]);
      r := Ok(m.extend["digest" := m.digest]);
    }
  }
}
