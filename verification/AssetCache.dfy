/**
  Embedded assets: files are rewritten, compressed and stored in the build directory under the hash
  of their content, reused by later builds, and served back by key together with the hashes the
  content security policy must allow.

  Hashing, compression and the HTML rewriter are parameters; what is assumed of them is `Sound`.
 */
module AssetCache {
  import opened Wrappers

  type Bytes = seq<nat>

  datatype Result<+T> = Ok(value: T) | Err(error: Error)

  datatype Error = AssetRead(path: string) | AssetWrite(path: string) | PrefixInvalid(path: string) | Walkdir

  datatype Codec = Codec(
    checksum: Bytes -> string,
    cspHash: Bytes -> string,
    compress: Bytes -> Bytes,
    decompress: Bytes -> Option<Bytes>)

  /** Checksums are collision-free hexadecimal text; decompression undoes compression. */
  ghost predicate Sound(c: Codec) {
    && (forall x, y :: c.checksum(x) == c.checksum(y) ==> x == y)
    && (forall x :: '.' !in c.checksum(x))
    && (forall x :: c.decompress(c.compress(x)) == Some(x))
  }

  /** The HTML pipeline: the page written back after nonce injection, and its inline scripts. */
  datatype Html = Html(rewrite: Bytes -> Bytes, scripts: Bytes -> seq<Bytes>)

  datatype Disabled = Flag(all: bool) | List(directives: seq<string>)

  const SCRIPT_SRC := "script-src"

  function CanModify(d: Disabled, directive: string): bool {
    match d
    case Flag(all) => !all
    case List(l) => directive !in l
  }

  datatype Options = Options(csp: bool, disabled: Disabled)

  /** A walked file: `key` is absent if the prefix cannot be stripped, `content` if it cannot be read. */
  datatype File = File(path: string, ext: Option<string>, key: Option<string>, content: Option<Bytes>)

  datatype WalkEntry = Directory | Regular(file: File) | Unreadable

  datatype Hashes = Hashes(scripts: seq<string>, inlineScripts: map<string, seq<string>>, styles: seq<string>)

  /** What the file system does to one write: completes it, refuses the file, or cuts it short. */
  datatype Write = Complete | Refused | Cut(partial: Bytes)

  /** key to (source path, name in the build directory) */
  type Assets = map<string, (string, string)>

  // ---- names ----

  function OutName(c: Codec, x: Bytes, ext: Option<string>): string {
    if ext.Some? then c.checksum(x) + "." + ext.value else c.checksum(x)
  }

  function Stem(name: string): string {
    if name == [] || name[0] == '.' then [] else [name[0]] + Stem(name[1..])
  }

  lemma {:induction false} StemOfPlain(s: string, rest: string)
    requires '.' !in s && (rest == [] || rest[0] == '.')
    ensures Stem(s + rest) == s
  {
    if s == [] {
      assert s + rest == rest;
    } else {
      assert (s + rest)[0] == s[0] && (s + rest)[1..] == s[1..] + rest;
      StemOfPlain(s[1..], rest);
    }
  }

  /** A name in the build directory determines the content it stands for. */
  lemma NameDeterminesContent(c: Codec, x: Bytes, e: Option<string>, y: Bytes, f: Option<string>)
    requires Sound(c) && OutName(c, x, e) == OutName(c, y, f)
    ensures x == y
  {
    StemOfName(c, x, e);
    StemOfName(c, y, f);
  }

  /** Two files share a name exactly if they share content and extension. */
  lemma SameNameIff(c: Codec, x: Bytes, e: Option<string>, y: Bytes, f: Option<string>)
    requires Sound(c)
    ensures OutName(c, x, e) == OutName(c, y, f) <==> x == y && e == f
  {
    if OutName(c, x, e) == OutName(c, y, f) {
      NameDeterminesContent(c, x, e, y, f);
      var n := |c.checksum(x)|;
      assert e.Some? ==> OutName(c, x, e)[n + 1..] == e.value;
      assert f.Some? ==> OutName(c, x, f)[n + 1..] == f.value;
    }
  }

  lemma StemOfName(c: Codec, x: Bytes, e: Option<string>)
    requires Sound(c)
    ensures Stem(OutName(c, x, e)) == c.checksum(x)
  {
    if e.Some? {
      StemOfPlain(c.checksum(x), "." + e.value);
      assert OutName(c, x, e) == c.checksum(x) + ("." + e.value);
    } else {
      StemOfPlain(c.checksum(x), "");
      assert c.checksum(x) + "" == c.checksum(x);
    }
  }

  // ---- the cache invariant ----

  ghost predicate Holds(c: Codec, disk: map<string, Bytes>, x: Bytes, e: Option<string>) {
    OutName(c, x, e) in disk ==> c.decompress(disk[OutName(c, x, e)]) == Some(x)
  }

  /** Whatever lies in the build directory under the name of some content decompresses to it. */
  ghost predicate CacheOk(c: Codec, disk: map<string, Bytes>) {
    forall x, e :: Holds(c, disk, x, e)
  }

  lemma StoreKeepsCache(c: Codec, disk: map<string, Bytes>, x: Bytes, e: Option<string>)
    requires Sound(c) && CacheOk(c, disk)
    ensures CacheOk(c, disk[OutName(c, x, e) := c.compress(x)])
  {
    var disk' := disk[OutName(c, x, e) := c.compress(x)];
    forall y, f ensures Holds(c, disk', y, f) {
      assert Holds(c, disk, y, f);
      if OutName(c, y, f) == OutName(c, x, e) { NameDeterminesContent(c, y, f, x, e); }
    }
  }

  /** A write that was cut short keeps the cache sound exactly if what got written still decompresses. */
  lemma CutKeepsCacheIff(c: Codec, disk: map<string, Bytes>, x: Bytes, e: Option<string>, partial: Bytes)
    requires Sound(c) && CacheOk(c, disk)
    ensures CacheOk(c, disk[OutName(c, x, e) := partial]) <==> c.decompress(partial) == Some(x)
  {
    var disk' := disk[OutName(c, x, e) := partial];
    if CacheOk(c, disk') { assert Holds(c, disk', x, e); }
    if c.decompress(partial) == Some(x) {
      forall y, f ensures Holds(c, disk', y, f) {
        assert Holds(c, disk, y, f);
        if OutName(c, y, f) == OutName(c, x, e) { NameDeterminesContent(c, y, f, x, e); }
      }
    }
  }

  // ---- what the source tree says ----

  predicate IsScript(f: File) { f.ext == Some("js") || f.ext == Some("mjs") }

  predicate IsPage(f: File) { f.ext == Some("html") }

  function Mapped(h: Html, o: Options, f: File): Bytes
    requires f.content.Some?
  {
    if IsPage(f) && o.csp then h.rewrite(f.content.value) else f.content.value
  }

  predicate Usable(f: File) { f.key.Some? && f.content.Some? }

  /** The last file with this key. */
  function LastWithKey(fs: seq<File>, key: string): Option<File> {
    if fs == [] then None
    else if fs[|fs| - 1].key == Some(key) then Some(fs[|fs| - 1])
    else LastWithKey(fs[..|fs| - 1], key)
  }

  function ScriptHashes(c: Codec, fs: seq<File>): seq<string> {
    if fs == [] then [] else
      var before := ScriptHashes(c, fs[..|fs| - 1]);
      var f := fs[|fs| - 1];
      if IsScript(f) && f.content.Some? then before + [c.cspHash(f.content.value)] else before
  }

  function HashAll(c: Codec, texts: seq<Bytes>): (r: seq<string>)
    ensures |r| == |texts| && forall i :: 0 <= i < |texts| ==> r[i] == c.cspHash(texts[i])
  {
    if texts == [] then [] else [c.cspHash(texts[0])] + HashAll(c, texts[1..])
  }

  /** The mapped content of the last file with this key. */
  function Served(h: Html, o: Options, fs: seq<File>, key: string): Option<Bytes> {
    match LastWithKey(fs, key)
    case None => None
    case Some(f) => if f.content.Some? then Some(Mapped(h, o, f)) else None
  }

  // ---- the run-time side ----

  /** The generated code embeds the build directory files by name. */
  datatype Embedded = Embedded(assets: map<string, Bytes>, globalHashes: seq<string>, pageHashes: map<string, seq<string>>)

  function Get(c: Codec, e: Embedded, key: string): Option<Bytes> {
    if key in e.assets then c.decompress(e.assets[key]) else None
  }

  function CspHashes(e: Embedded, page: string): seq<string> {
    e.globalHashes + (if page in e.pageHashes then e.pageHashes[page] else [])
  }

  predicate ServesScript(fs: seq<File>, key: string) {
    LastWithKey(fs, key).Some? && IsScript(LastWithKey(fs, key).value)
  }

  /** The bytes served under `key` have their hash in the list of the page. */
  predicate ScriptAllowed(c: Codec, e: Embedded, key: string, page: string) {
    Get(c, e, key).Some? && c.cspHash(Get(c, e, key).value) in CspHashes(e, page)
  }

  ghost predicate ScriptsAllowed(c: Codec, e: Embedded, fs: seq<File>) {
    forall key, page :: ServesScript(fs, key) ==> ScriptAllowed(c, e, key, page)
  }

  /** The inline scripts of the page served under `key`, if it is one. */
  function PageScripts(h: Html, fs: seq<File>, key: string): seq<Bytes> {
    var f := LastWithKey(fs, key);
    if f.Some? && IsPage(f.value) && f.value.content.Some? then h.scripts(f.value.content.value) else []
  }

  /** Every inline script of every served page has its hash in the list of that page. */
  ghost predicate InlineAllowed(c: Codec, h: Html, e: Embedded, fs: seq<File>) {
    forall key, j :: 0 <= j < |PageScripts(h, fs, key)| ==> c.cspHash(PageScripts(h, fs, key)[j]) in CspHashes(e, key)
  }

  function Embed(assets: Assets, disk: map<string, Bytes>, h: Hashes): Embedded
    requires forall k :: k in assets ==> assets[k].1 in disk
  {
    Embedded(map k | k in assets :: disk[assets[k].1], h.scripts + h.styles, h.inlineScripts)
  }

  // ---- the build ----

  datatype Project = Project(entries: seq<WalkEntry>, options: Options, writes: seq<Write>) {
    function Files(): seq<File> { RegularFiles(entries) }

    /** One write outcome for each file. */
    predicate Sized() { |writes| == |Files()| }
  }

  class Build {
    const codec: Codec
    const html: Html
    /** The build directory; it outlives every build. */
    var disk: map<string, Bytes>

    constructor (codec: Codec, html: Html, disk: map<string, Bytes>)
      ensures this.codec == codec && this.html == html && this.disk == disk
    {
      this.codec, this.html, this.disk := codec, html, disk;
    }

    /** The first pass: list the files and hash the scripts among them. */
    method ScanRaw(entries: seq<WalkEntry>, o: Options) returns (r: Result<(seq<File>, Hashes)>)
      ensures r.Ok? <==> forall i :: 0 <= i < |entries| ==> Scannable(entries[i], o)
      ensures r.Ok? ==>
                && r.value.0 == RegularFiles(entries)
                && r.value.1.scripts == (if CanModify(o.disabled, SCRIPT_SRC) then ScriptHashes(codec, r.value.0) else [])
                && r.value.1.inlineScripts == map[] && r.value.1.styles == []
    {
      var files: seq<File>, scripts: seq<string> := [], [];
      for i := 0 to |entries|
        invariant files == RegularFiles(entries[..i])
        invariant forall k :: 0 <= k < i ==> Scannable(entries[k], o)
        invariant scripts == if CanModify(o.disabled, SCRIPT_SRC) then ScriptHashes(codec, files) else []
      {
        assert entries[..i + 1][..i] == entries[..i];
        match entries[i] {
          case Directory =>
          case Unreadable =>
            return Err(Walkdir);
          case Regular(f) =>
            if f.ext == Some("js") || f.ext == Some("mjs") {
              if CanModify(o.disabled, SCRIPT_SRC) {
                if f.content.None? {
                  return Err(AssetRead(f.path));
                }
                scripts := scripts + [codec.cspHash(f.content.value)];
              }
            }
            assert (files + [f])[..|files|] == files;
            files := files + [f];
        }
      }
      assert entries[..|entries|] == entries;
      r := Ok((files, Hashes(scripts, map[], [])));
    }

    /** `map_core_assets` on one file. */
    method MapAsset(f: File, key: string, o: Options, hashes: Hashes) returns (input: Bytes, hashes': Hashes)
      requires f.content.Some?
      ensures input == Mapped(html, o, f)
      ensures hashes'.scripts == hashes.scripts && hashes'.styles == hashes.styles
      ensures hashes'.inlineScripts ==
                if IsPage(f) && o.csp && CanModify(o.disabled, SCRIPT_SRC)
                then hashes.inlineScripts[key := PageHashes(hashes, key) + HashAll(codec, html.scripts(f.content.value))]
                else hashes.inlineScripts
    {
      input, hashes' := f.content.value, hashes;
      if f.ext == Some("html") {
        if o.csp {
          if CanModify(o.disabled, SCRIPT_SRC) {
            var scripts: seq<string> := [];
            var texts := html.scripts(input);
            for i := 0 to |texts|
              invariant scripts == HashAll(codec, texts[..i])
            {
              assert texts[..i + 1] == texts[..i] + [texts[i]];
              HashAllSnoc(codec, texts[..i], texts[i]);
              scripts := scripts + [codec.cspHash(texts[i])];
            }
            assert texts[..|texts|] == texts;
            hashes' := hashes.(inlineScripts := hashes.inlineScripts[key := PageHashes(hashes, key) + scripts]);
          }
          input := html.rewrite(input);
        }
      }
    }

    /**
      `compress_file`. It succeeds with the content in the cache under its own name; a failure leaves the
      directory as it was, except that a write that was cut short leaves its file.
     */
    method CompressFile(f: File, o: Options, hashes: Hashes, write: Write)
      returns (r: Result<(string, (string, string))>, hashes': Hashes)
      requires Sound(codec)
      modifies this`disk
      ensures r.Ok? ==>
                && Usable(f) && r.value == (f.key.value, (f.path, Name(f, o))) && Name(f, o) in disk
                && disk == (if Name(f, o) in old(disk) then old(disk)
                            else old(disk)[Name(f, o) := codec.compress(Mapped(html, o, f))])
                && hashes'.scripts == hashes.scripts && hashes'.styles == hashes.styles
                && hashes'.inlineScripts == (
                     if IsPage(f) && o.csp && CanModify(o.disabled, SCRIPT_SRC)
                     then hashes.inlineScripts[f.key.value := PageHashes(hashes, f.key.value) + HashAll(codec, html.scripts(f.content.value))]
                     else hashes.inlineScripts)
      ensures r.Err? ==>
                disk == if Usable(f) && write.Cut? then old(disk)[Name(f, o) := write.partial] else old(disk)
      ensures r.Ok? <==> Usable(f) && (Name(f, o) in old(disk) || write.Complete?)
    {
      hashes' := hashes;
      if f.content.None? {
        return Err(AssetRead(f.path)), hashes;
      }
      if f.key.None? {
        return Err(PrefixInvalid(f.path)), hashes;
      }
      var key := f.key.value;
      var input: Bytes;
      input, hashes' := MapAsset(f, key, o, hashes);
      var hash := codec.checksum(input);
      var outName := if f.ext.Some? then hash + "." + f.ext.value else hash;
      if outName !in disk {
        match write {
          case Refused =>
            return Err(AssetWrite(outName)), hashes';
          case Cut(partial) =>
            disk := disk[outName := partial];
            return Err(AssetWrite(f.path)), hashes';
          case Complete =>
            disk := disk[outName := codec.compress(input)];
        }
      }
      r := Ok((key, (f.path, outName)));
    }

    ghost function Name(f: File, o: Options): string
      requires f.content.Some?
    {
      OutName(codec, Mapped(html, o, f), f.ext)
    }

    /** Every key of `fs` is mapped to the build file of the last path with that key. */
    ghost predicate Covers(assets: Assets, fs: seq<File>, o: Options, d: map<string, Bytes>) {
      forall k :: CoversKey(assets, fs, o, d, k)
    }

    ghost predicate CoversKey(assets: Assets, fs: seq<File>, o: Options, d: map<string, Bytes>, k: string) {
      match LastWithKey(fs, k)
      case None => k !in assets
      case Some(f) => k in assets && f.content.Some? && assets[k] == (f.path, Name(f, o)) && Name(f, o) in d
    }

    /** File `i` gets through: it is usable, and its name is there already or its write completes. */
    ghost predicate Passes(d: map<string, Bytes>, fs: seq<File>, o: Options, writes: seq<Write>, i: nat)
      requires i < |fs| == |writes|
    {
      Usable(fs[i]) && (writes[i].Complete? || Name(fs[i], o) in d || exists j :: 0 <= j < i && SameName(fs, o, j, i))
    }

    ghost predicate SameName(fs: seq<File>, o: Options, j: nat, i: nat)
      requires j < |fs| && i < |fs|
    {
      fs[j].content.Some? && fs[i].content.Some? && Name(fs[j], o) == Name(fs[i], o)
    }

    /** The first file that does not get through. */
    ghost predicate StopsAt(d: map<string, Bytes>, fs: seq<File>, o: Options, writes: seq<Write>, i: nat)
      requires i < |fs| == |writes|
    {
      !Passes(d, fs, o, writes, i) && forall j :: 0 <= j < i ==> Passes(d, fs, o, writes, j)
    }

    /** What is left behind when file `i` does not get through: a wrong file under its name, or nothing wrong. */
    ghost predicate Spoils(fs: seq<File>, o: Options, writes: seq<Write>, i: nat)
      requires i < |fs| == |writes|
    {
      Usable(fs[i]) && writes[i].Cut? && codec.decompress(writes[i].partial) != Some(Mapped(html, o, fs[i]))
    }

    /** The directory after the first `n` files: nothing changed, and for each file its name, new ones with its content. */
    ghost predicate Filled(d: map<string, Bytes>, fs: seq<File>, o: Options, n: nat, d': map<string, Bytes>)
      requires n <= |fs|
    {
      && (forall k :: k in d ==> k in d' && d'[k] == d[k])
      && (forall i :: 0 <= i < n ==> Usable(fs[i]) && FilledAt(d, d', fs[i], o))
      && (forall k :: k in d' ==> k in d || exists i :: 0 <= i < n && fs[i].content.Some? && Name(fs[i], o) == k)
    }

    ghost predicate FilledAt(d: map<string, Bytes>, d': map<string, Bytes>, f: File, o: Options) {
      && f.content.Some? && Name(f, o) in d'
      && (Name(f, o) !in d ==> codec.decompress(d'[Name(f, o)]) == Some(Mapped(html, o, f)))
    }

    /** A name that one of the first files brought in stands for the content of every file of that name. */
    lemma FilledFor(d: map<string, Bytes>, fs: seq<File>, o: Options, n: nat, d': map<string, Bytes>, f: File)
      requires Sound(codec) && n <= |fs| && Filled(d, fs, o, n, d') && f.content.Some? && Name(f, o) in d'
      ensures FilledAt(d, d', f, o)
    {
      if Name(f, o) !in d {
        var i :| 0 <= i < n && fs[i].content.Some? && Name(fs[i], o) == Name(f, o);
        assert FilledAt(d, d', fs[i], o);
        NameDeterminesContent(codec, Mapped(html, o, fs[i]), fs[i].ext, Mapped(html, o, f), f.ext);
      }
    }

    lemma FilledStep(d: map<string, Bytes>, fs: seq<File>, o: Options, n: nat, d1: map<string, Bytes>, d2: map<string, Bytes>)
      requires Sound(codec) && n < |fs| && Filled(d, fs, o, n, d1) && Usable(fs[n])
      requires d2 == if Name(fs[n], o) in d1 then d1 else d1[Name(fs[n], o) := codec.compress(Mapped(html, o, fs[n]))]
      ensures Filled(d, fs, o, n + 1, d2)
    {
      if Name(fs[n], o) in d1 { FilledFor(d, fs, o, n, d1, fs[n]); }
      forall i | 0 <= i < n + 1 ensures Usable(fs[i]) && FilledAt(d, d2, fs[i], o) {
        if i < n { assert FilledAt(d, d1, fs[i], o); }
      }
      forall k | k in d2 && k !in d ensures exists i :: 0 <= i < n + 1 && fs[i].content.Some? && Name(fs[i], o) == k {
        if k in d1 {
          var i :| 0 <= i < n && fs[i].content.Some? && Name(fs[i], o) == k;
          assert i < n + 1;
        } else {
          assert Name(fs[n], o) == k;
        }
      }
    }

    /** Filling a sound cache keeps it sound. */
    lemma FilledIsSound(d: map<string, Bytes>, fs: seq<File>, o: Options, n: nat, d': map<string, Bytes>)
      requires Sound(codec) && CacheOk(codec, d) && n <= |fs| && Filled(d, fs, o, n, d')
      ensures CacheOk(codec, d')
    {
      forall x, e ensures Holds(codec, d', x, e) {
        assert Holds(codec, d, x, e);
        var name := OutName(codec, x, e);
        if name in d' && name !in d {
          var i :| 0 <= i < n && fs[i].content.Some? && Name(fs[i], o) == name;
          assert FilledAt(d, d', fs[i], o);
          NameDeterminesContent(codec, Mapped(html, o, fs[i]), fs[i].ext, x, e);
        }
      }
    }

    /** A name is there after `n` files exactly if it was before or one of them has it. */
    lemma FilledPasses(d: map<string, Bytes>, fs: seq<File>, o: Options, writes: seq<Write>, n: nat, d': map<string, Bytes>)
      requires n < |fs| == |writes| && Filled(d, fs, o, n, d')
      ensures Passes(d, fs, o, writes, n) <==> Usable(fs[n]) && (writes[n].Complete? || Name(fs[n], o) in d')
    {
      if Usable(fs[n]) {
        var name := Name(fs[n], o);
        if name in d' && name !in d {
          var i :| 0 <= i < n && fs[i].content.Some? && Name(fs[i], o) == name;
          assert SameName(fs, o, i, n);
        }
        if j :| 0 <= j < n && SameName(fs, o, j, n) { assert FilledAt(d, d', fs[j], o); }
      }
    }

    lemma StopIsUnique(d: map<string, Bytes>, fs: seq<File>, o: Options, writes: seq<Write>, i: nat, j: nat)
      requires |fs| == |writes| && i < |fs| && j < |fs| && StopsAt(d, fs, o, writes, i) && StopsAt(d, fs, o, writes, j)
      ensures i == j
    {
    }

    /** What a second pass that stops at file `i` leaves behind. */
    ghost predicate Stopped(d: map<string, Bytes>, fs: seq<File>, o: Options, writes: seq<Write>, i: nat, d': map<string, Bytes>)
      requires i < |fs| == |writes|
    {
      if Usable(fs[i]) && writes[i].Cut?
      then Name(fs[i], o) !in d && exists full :: Filled(d, fs, o, i, full) && d' == full[Name(fs[i], o) := writes[i].partial]
      else Filled(d, fs, o, i, d')
    }

    lemma StoppedSoundIff(d: map<string, Bytes>, fs: seq<File>, o: Options, writes: seq<Write>, i: nat, d': map<string, Bytes>)
      requires Sound(codec) && CacheOk(codec, d) && i < |fs| == |writes| && Stopped(d, fs, o, writes, i, d')
      ensures CacheOk(codec, d') <==> !Spoils(fs, o, writes, i)
    {
      if Usable(fs[i]) && writes[i].Cut? {
        var full :| Filled(d, fs, o, i, full) && d' == full[Name(fs[i], o) := writes[i].partial];
        FilledIsSound(d, fs, o, i, full);
        CutKeepsCacheIff(codec, full, Mapped(html, o, fs[i]), fs[i].ext, writes[i].partial);
      } else {
        FilledIsSound(d, fs, o, i, d');
      }
    }

    /**
      The second pass: compress all files. Later paths win over earlier ones with the same key. It succeeds
      exactly if every file gets through; from any directory, sound or not, it only adds, and a pass that
      stops leaves behind the files before the stop and what was written of the one it stopped at.
     */
    method CompressAll(fs: seq<File>, o: Options, scripts: Hashes, writes: seq<Write>)
      returns (r: Result<(Assets, Hashes)>)
      requires Sound(codec) && |writes| == |fs| && scripts.inlineScripts == map[]
      modifies this`disk
      ensures r.Ok? <==> forall i :: 0 <= i < |fs| ==> Passes(old(disk), fs, o, writes, i)
      ensures r.Ok? ==> Filled(old(disk), fs, o, |fs|, disk) && Covers(r.value.0, fs, o, disk)
      ensures r.Ok? ==> r.value.1.scripts == scripts.scripts && r.value.1.styles == scripts.styles
      ensures r.Ok? && o.csp && CanModify(o.disabled, SCRIPT_SRC) ==> PagesHashed(codec, html, fs, r.value.1)
      ensures r.Ok? && !(o.csp && CanModify(o.disabled, SCRIPT_SRC)) ==> r.value.1.inlineScripts == map[]
      ensures r.Err? ==> exists i :: 0 <= i < |fs| && StopsAt(old(disk), fs, o, writes, i) && Stopped(old(disk), fs, o, writes, i, disk)
    {
      var assets: Assets := map[];
      var hashes := scripts;
      var i := 0;
      while i < |fs|
        invariant 0 <= i <= |fs|
        invariant SoFar(old(disk), fs, o, writes, i, disk, assets, hashes)
        invariant hashes.scripts == scripts.scripts && hashes.styles == scripts.styles
        invariant !(o.csp && CanModify(o.disabled, SCRIPT_SRC)) ==> hashes.inlineScripts == map[]
      {
        ghost var disk0, assets0, hashes0 := disk, assets, hashes;
        FilledPasses(old(disk), fs, o, writes, i, disk);
        var step, hashes' := CompressFile(fs[i], o, hashes, writes[i]);
        if step.Err? {
          StopsHere(old(disk), fs, o, writes, i, disk0, disk);
          return Err(step.error);
        }
        hashes := hashes';
        assets := assets[step.value.0 := step.value.1];
        SoFarStep(old(disk), fs, o, writes, i, disk0, assets0, hashes0, disk, hashes);
        i := i + 1;
      }
      assert fs[..|fs|] == fs;
      r := Ok((assets, hashes));
    }

    /** What holds after the first `n` files. */
    ghost predicate SoFar(d: map<string, Bytes>, fs: seq<File>, o: Options, writes: seq<Write>, n: nat,
                          d': map<string, Bytes>, assets: Assets, hashes: Hashes)
      requires n <= |fs| == |writes|
    {
      && Filled(d, fs, o, n, d')
      && (forall j :: 0 <= j < n ==> Passes(d, fs, o, writes, j))
      && Covers(assets, fs[..n], o, d')
      && (o.csp && CanModify(o.disabled, SCRIPT_SRC) ==> PagesHashed(codec, html, fs[..n], hashes))
    }

    lemma StopsHere(d: map<string, Bytes>, fs: seq<File>, o: Options, writes: seq<Write>, n: nat,
                    d1: map<string, Bytes>, d2: map<string, Bytes>)
      requires n < |fs| == |writes| && Filled(d, fs, o, n, d1) && !Passes(d, fs, o, writes, n)
      requires forall j :: 0 <= j < n ==> Passes(d, fs, o, writes, j)
      requires d2 == if Usable(fs[n]) && writes[n].Cut? then d1[Name(fs[n], o) := writes[n].partial] else d1
      ensures StopsAt(d, fs, o, writes, n) && Stopped(d, fs, o, writes, n, d2)
    {
    }

    lemma SoFarStep(d: map<string, Bytes>, fs: seq<File>, o: Options, writes: seq<Write>, n: nat,
                    d1: map<string, Bytes>, assets: Assets, hashes: Hashes, d2: map<string, Bytes>, hashes': Hashes)
      requires Sound(codec) && n < |fs| == |writes| && SoFar(d, fs, o, writes, n, d1, assets, hashes)
      requires Usable(fs[n]) && Passes(d, fs, o, writes, n)
      requires d2 == if Name(fs[n], o) in d1 then d1 else d1[Name(fs[n], o) := codec.compress(Mapped(html, o, fs[n]))]
      requires o.csp && CanModify(o.disabled, SCRIPT_SRC) ==>
                 hashes'.inlineScripts == (
                   if IsPage(fs[n])
                   then hashes.inlineScripts[fs[n].key.value := PageHashes(hashes, fs[n].key.value) + HashAll(codec, html.scripts(fs[n].content.value))]
                   else hashes.inlineScripts)
      ensures SoFar(d, fs, o, writes, n + 1, d2, assets[fs[n].key.value := (fs[n].path, Name(fs[n], o))], hashes')
    {
      FilledStep(d, fs, o, n, d1, d2);
      CoversStep(assets, fs, n, o, d1, d2);
      if o.csp && CanModify(o.disabled, SCRIPT_SRC) { PagesStep(codec, html, fs, n, hashes, hashes'); }
    }

    /** The bytes served under a key, from whatever directory the build found: an existing file is taken as it is. */
    ghost function ServedFrom(d: map<string, Bytes>, fs: seq<File>, o: Options, key: string): Option<Bytes> {
      match LastWithKey(fs, key)
      case None => None
      case Some(f) =>
        if f.content.None? then None
        else if Name(f, o) in d then codec.decompress(d[Name(f, o)])
        else Some(Mapped(html, o, f))
    }

    /** From a sound directory that is the content the source tree says. */
    lemma ServedFromSound(d: map<string, Bytes>, fs: seq<File>, o: Options, key: string)
      requires CacheOk(codec, d)
      ensures ServedFrom(d, fs, o, key) == Served(html, o, fs, key)
    {
      match LastWithKey(fs, key)
      case None =>
      case Some(f) => if f.content.Some? { assert Holds(codec, d, Mapped(html, o, f), f.ext); }
    }

    lemma ServesFilled(assets: Assets, hs: Hashes, fs: seq<File>, o: Options, d: map<string, Bytes>, d': map<string, Bytes>, key: string)
      requires Filled(d, fs, o, |fs|, d') && Covers(assets, fs, o, d')
      ensures forall k :: k in assets ==> assets[k].1 in d'
      ensures Get(codec, Embed(assets, d', hs), key) == ServedFrom(d, fs, o, key)
    {
      forall k | k in assets ensures assets[k].1 in d' { assert CoversKey(assets, fs, o, d', k); }
      assert CoversKey(assets, fs, o, d', key);
      LastIsMember(fs, key);
      match LastWithKey(fs, key)
      case None =>
      case Some(f) =>
        var i :| 0 <= i < |fs| && fs[i] == f;
        assert FilledAt(d, d', fs[i], o);
    }

    /** What a build that succeeded from a sound cache promises. */
    ghost predicate Right(fs: seq<File>, o: Options, e: Embedded) {
      && (forall key :: Get(codec, e, key) == Served(html, o, fs, key))
      && (CanModify(o.disabled, SCRIPT_SRC) ==> ScriptsAllowed(codec, e, fs))
      && (o.csp && CanModify(o.disabled, SCRIPT_SRC) ==> InlineAllowed(codec, html, e, fs))
    }

    /**
      Both passes and the embedding. A build that succeeds serves under every key what the directory held
      under the name of the last path's content, or that content. From a sound cache this is the content,
      every served script is allowed on every page and every inline script on its own, and the cache stays
      sound; a build that fails leaves it sound unless it stopped at a write that spoiled it.
     */
    method BuildEmbedded(entries: seq<WalkEntry>, o: Options, writes: seq<Write>) returns (r: Result<Embedded>)
      requires Sound(codec) && |writes| == |RegularFiles(entries)|
      modifies this`disk
      ensures var fs := RegularFiles(entries);
              r.Ok? <==> && (forall i :: 0 <= i < |entries| ==> Scannable(entries[i], o))
                         && (forall i :: 0 <= i < |fs| ==> Passes(old(disk), fs, o, writes, i))
      ensures r.Ok? ==> Filled(old(disk), RegularFiles(entries), o, |writes|, disk)
      ensures r.Ok? ==> forall key :: Get(codec, r.value, key) == ServedFrom(old(disk), RegularFiles(entries), o, key)
      ensures r.Ok? && CacheOk(codec, old(disk)) ==> CacheOk(codec, disk) && Right(RegularFiles(entries), o, r.value)
      ensures r.Ok? && CacheOk(codec, old(disk)) ==>
                ServesEntries(codec, html, entries, o, r.value) && AllowsScripts(codec, html, entries, o, r.value)
      ensures r.Ok? && (o.disabled == Flag(true) || (o.disabled.List? && "script-src" in o.disabled.directives)) ==>
                forall page :: CspHashes(r.value, page) == []
      ensures r.Err? ==>
                if forall i :: 0 <= i < |entries| ==> Scannable(entries[i], o)
                then exists i :: 0 <= i < |writes| && StopsAt(old(disk), RegularFiles(entries), o, writes, i)
                                 && Stopped(old(disk), RegularFiles(entries), o, writes, i, disk)
                else disk == old(disk)
      ensures r.Err? && CacheOk(codec, old(disk)) ==>
                (CacheOk(codec, disk) <==>
                   !(&& (forall i :: 0 <= i < |entries| ==> Scannable(entries[i], o))
                     && exists i :: 0 <= i < |writes| && StopsAt(old(disk), RegularFiles(entries), o, writes, i)
                                    && Spoils(RegularFiles(entries), o, writes, i)))
    {
      var scan := ScanRaw(entries, o);
      if scan.Err? {
        return Err(scan.error);
      }
      var (files, scripts) := scan.value;
      ghost var before := disk;
      var built := CompressAll(files, o, scripts, writes);
      if built.Err? {
        ghost var i :| 0 <= i < |files| && StopsAt(before, files, o, writes, i) && Stopped(before, files, o, writes, i, disk);
        if CacheOk(codec, before) {
          StoppedSoundIff(before, files, o, writes, i, disk);
          forall j | 0 <= j < |files| && StopsAt(before, files, o, writes, j) ensures j == i {
            StopIsUnique(before, files, o, writes, i, j);
          }
        }
        return Err(built.error);
      }
      var (assets, hashes) := built.value;
      ServesFilled(assets, hashes, files, o, before, disk, "");
      var e := Embed(assets, disk, hashes);
      forall key ensures Get(codec, e, key) == ServedFrom(before, files, o, key) {
        ServesFilled(assets, hashes, files, o, before, disk, key);
      }
      if CacheOk(codec, before) {
        FilledIsSound(before, files, o, |files|, disk);
        BuiltRight(assets, hashes, files, o, disk);
        RightServes(entries, o, e);
        RightAllows(entries, o, e);
      }
      r := Ok(e);
    }

    lemma BuiltRight(assets: Assets, hs: Hashes, fs: seq<File>, o: Options, d: map<string, Bytes>)
      requires CacheOk(codec, d) && Covers(assets, fs, o, d)
      requires hs.scripts == if CanModify(o.disabled, SCRIPT_SRC) then ScriptHashes(codec, fs) else []
      requires o.csp && CanModify(o.disabled, SCRIPT_SRC) ==> PagesHashed(codec, html, fs, hs)
      ensures forall k :: k in assets ==> assets[k].1 in d
      ensures Right(fs, o, Embed(assets, d, hs))
    {
      ServesSource(this, assets, hs, fs, o, d, "");
      var e := Embed(assets, d, hs);
      forall key ensures Get(codec, e, key) == Served(html, o, fs, key) { ServesSource(this, assets, hs, fs, o, d, key); }
      if CanModify(o.disabled, SCRIPT_SRC) {
        forall key, page | ServesScript(fs, key) ensures ScriptAllowed(codec, e, key, page) {
          ServedScriptsAllowed(this, assets, hs, fs, o, d, key, page);
        }
        if o.csp {
          forall key, j | 0 <= j < |PageScripts(html, fs, key)|
            ensures codec.cspHash(PageScripts(html, fs, key)[j]) in CspHashes(e, key)
          {
            InlineScriptsAllowed(this, assets, hs, fs, o, d, key, j);
          }
        }
      }
    }

    lemma RightServes(entries: seq<WalkEntry>, o: Options, e: Embedded)
      requires Right(RegularFiles(entries), o, e)
      ensures ServesEntries(codec, html, entries, o, e)
    {
      forall i: nat, key | LastEntry(entries, i, key) && entries[i].file.content.Some?
        ensures Get(codec, e, key) == Some(Page(html, o, entries[i].file))
      {
        LastEntryIsLast(entries, i, key);
      }
      forall key | forall i :: 0 <= i < |entries| ==> !HasKey(entries[i], key) ensures Get(codec, e, key) == None {
        NoEntryNoFile(entries, key);
      }
    }

    lemma RightAllows(entries: seq<WalkEntry>, o: Options, e: Embedded)
      requires Right(RegularFiles(entries), o, e)
      ensures AllowsScripts(codec, html, entries, o, e)
    {
      var fs := RegularFiles(entries);
      forall i: nat, key, page | LastEntry(entries, i, key) && ScriptText(entries[i].file).Some? && Modifiable(o.disabled)
        ensures codec.cspHash(ScriptText(entries[i].file).value) in CspHashes(e, page)
      {
        LastEntryIsLast(entries, i, key);
        assert ServesScript(fs, key) && ScriptAllowed(codec, e, key, page);
      }
      forall i: nat, key, j | LastEntry(entries, i, key) && 0 <= j < |InlineTexts(html, entries[i].file)| && Modifiable(o.disabled) && o.csp
        ensures codec.cspHash(InlineTexts(html, entries[i].file)[j]) in CspHashes(e, key)
      {
        LastEntryIsLast(entries, i, key);
        assert PageScripts(html, fs, key) == InlineTexts(html, entries[i].file);
      }
    }

    /** The build gets as far as a write that was cut short and whose remains are wrong. */
    ghost predicate SpoilsBuild(d: map<string, Bytes>, b: Project)
      requires b.Sized()
    {
      && (forall i :: 0 <= i < |b.entries| ==> Scannable(b.entries[i], b.options))
      && exists i :: 0 <= i < |b.writes| && StopsAt(d, b.Files(), b.options, b.writes, i) && Spoils(b.Files(), b.options, b.writes, i)
    }

    /** Nothing in a directory is ever overwritten or removed. */
    ghost predicate Grows(d: map<string, Bytes>, d': map<string, Bytes>) {
      forall k :: k in d ==> k in d' && d'[k] == d[k]
    }

    lemma WrongStaysWrong(d: map<string, Bytes>, d': map<string, Bytes>)
      requires Grows(d, d') && !CacheOk(codec, d)
      ensures !CacheOk(codec, d')
    {
      var x, e :| !Holds(codec, d, x, e);
      assert !Holds(codec, d', x, e);
    }

    lemma StoppedGrows(d: map<string, Bytes>, fs: seq<File>, o: Options, writes: seq<Write>, i: nat, d': map<string, Bytes>)
      requires i < |fs| == |writes| && Stopped(d, fs, o, writes, i, d')
      ensures Grows(d, d')
    {
      if Usable(fs[i]) && writes[i].Cut? {
        var full :| Filled(d, fs, o, i, full) && d' == full[Name(fs[i], o) := writes[i].partial];
      }
    }

    /** What one build did: nothing is lost, what it serves, whether it spoils the cache, and that it is right if the cache was. */
    ghost predicate Record(d: map<string, Bytes>, b: Project, r: Result<Embedded>, d': map<string, Bytes>)
      requires b.Sized()
    {
      && Grows(d, d')
      && (CacheOk(codec, d') <==> CacheOk(codec, d) && !SpoilsBuild(d, b))
      && (r.Ok? ==> forall key :: Get(codec, r.value, key) == ServedFrom(d, b.Files(), b.options, key))
      && (r.Ok? && CacheOk(codec, d) ==>
            && Right(b.Files(), b.options, r.value)
            && ServesEntries(codec, html, b.entries, b.options, r.value) && AllowsScripts(codec, html, b.entries, b.options, r.value))
    }

    method RunBuild(b: Project) returns (r: Result<Embedded>)
      requires Sound(codec) && b.Sized()
      modifies this`disk
      ensures Record(old(disk), b, r, disk)
    {
      ghost var d, fs := disk, b.Files();
      r := BuildEmbedded(b.entries, b.options, b.writes);
      if r.Err? && forall i :: 0 <= i < |b.entries| ==> Scannable(b.entries[i], b.options) {
        ghost var i :| 0 <= i < |b.writes| && StopsAt(d, fs, b.options, b.writes, i) && Stopped(d, fs, b.options, b.writes, i, disk);
        StoppedGrows(d, fs, b.options, b.writes, i, disk);
      }
      if !CacheOk(codec, d) { WrongStaysWrong(d, disk); }
    }

    ghost predicate Records(builds: seq<Project>, results: seq<Result<Embedded>>, dirs: seq<map<string, Bytes>>)
      requires |dirs| == |results| + 1 && |results| <= |builds| && forall i :: 0 <= i < |builds| ==> builds[i].Sized()
    {
      forall i :: 0 <= i < |results| ==> Record(dirs[i], builds[i], results[i], dirs[i + 1])
    }

    /** The cache is sound before build `n` exactly if it was at the start and no earlier build stopped at a spoiling write. */
    lemma {:induction false} SoundIff(builds: seq<Project>, results: seq<Result<Embedded>>, dirs: seq<map<string, Bytes>>, n: nat)
      requires |dirs| == |results| + 1 && n <= |results| <= |builds| && forall i :: 0 <= i < |builds| ==> builds[i].Sized()
      requires Records(builds, results, dirs)
      ensures CacheOk(codec, dirs[n]) <==> CacheOk(codec, dirs[0]) && forall j :: 0 <= j < n ==> !SpoilsBuild(dirs[j], builds[j])
      ensures Grows(dirs[0], dirs[n])
    {
      if n > 0 {
        SoundIff(builds, results, dirs, n - 1);
        assert Record(dirs[n - 1], builds[n - 1], results[n - 1], dirs[n]);
      }
    }

    /**
      Any number of builds of any trees in one directory, successful or not. `dirs` are the directories
      before each build and at the end. Every build that succeeds serves what its directory makes of its
      tree, and is right if its directory is sound; and the cache is sound before any build and at the end
      exactly if it was at the start and no earlier build stopped at a spoiling write.
     */
    method RepeatedBuilds(builds: seq<Project>) returns (results: seq<Result<Embedded>>, ghost dirs: seq<map<string, Bytes>>)
      requires Sound(codec) && forall i :: 0 <= i < |builds| ==> builds[i].Sized()
      modifies this`disk
      ensures |results| == |builds| == |dirs| - 1 && dirs[0] == old(disk) && dirs[|builds|] == disk
      ensures Records(builds, results, dirs)
      ensures forall n :: 0 <= n < |dirs| ==>
                (CacheOk(codec, dirs[n]) <==> CacheOk(codec, old(disk)) && forall j :: 0 <= j < n ==> !SpoilsBuild(dirs[j], builds[j]))
    {
      results, dirs := [], [disk];
      for n := 0 to |builds|
        invariant |results| == n == |dirs| - 1 && dirs[0] == old(disk) && dirs[n] == disk
        invariant Records(builds, results, dirs)
      {
        var r := RunBuild(builds[n]);
        ghost var results0, dirs0 := results, dirs;
        results, dirs := results + [r], dirs + [disk];
        forall i | 0 <= i < |results| ensures Record(dirs[i], builds[i], results[i], dirs[i + 1]) {
          if i < n { assert Record(dirs0[i], builds[i], results0[i], dirs0[i + 1]); }
        }
      }
      forall n | 0 <= n < |dirs|
        ensures CacheOk(codec, dirs[n]) <==> CacheOk(codec, old(disk)) && forall j :: 0 <= j < n ==> !SpoilsBuild(dirs[j], builds[j])
      {
        SoundIff(builds, results, dirs, n);
      }
    }

    /** The content served under `key` has this name in the build directory. */
    ghost predicate HasName(fs: seq<File>, o: Options, key: string, name: string) {
      var f := LastWithKey(fs, key);
      f.Some? && f.value.content.Some? && Name(f.value, o) == name
    }

    lemma ServedPast(full: map<string, Bytes>, name: string, partial: Bytes, fs: seq<File>, o: Options, key: string)
      requires CacheOk(codec, full)
      ensures ServedFrom(full[name := partial], fs, o, key) ==
                if HasName(fs, o, key, name) then codec.decompress(partial) else Served(html, o, fs, key)
    {
      ServedFromSound(full, fs, o, key);
    }

    lemma ServedAfterCut(d: map<string, Bytes>, b: Project, i: nat, d': map<string, Bytes>, fs: seq<File>, o: Options, key: string)
      requires Sound(codec) && CacheOk(codec, d) && b.Sized() && i < |b.writes| && Stopped(d, b.Files(), b.options, b.writes, i, d')
      requires Usable(b.Files()[i]) && b.writes[i].Cut?
      ensures ServedFrom(d', fs, o, key) ==
                if HasName(fs, o, key, Name(b.Files()[i], b.options))
                then codec.decompress(b.writes[i].partial) else Served(html, o, fs, key)
    {
      var files := b.Files();
      var full :| Filled(d, files, b.options, i, full) && d' == full[Name(files[i], b.options) := b.writes[i].partial];
      FilledIsSound(d, files, b.options, i, full);
      ServedPast(full, Name(files[i], b.options), b.writes[i].partial, fs, o, key);
    }

    /**
      A build that stopped at a write cut short, then one of any tree with any options. If the second
      succeeds, every key whose content has the name of that file is served what was written of it, for
      good or bad, and every other key its own content.
     */
    method BuildAfterCut(b: Project, ghost i: nat, next: Project) returns (first: Result<Embedded>, second: Result<Embedded>)
      requires Sound(codec) && CacheOk(codec, disk) && b.Sized() && next.Sized()
      requires forall k :: 0 <= k < |b.entries| ==> Scannable(b.entries[k], b.options)
      requires i < |b.writes| && StopsAt(disk, b.Files(), b.options, b.writes, i) && b.writes[i].Cut? && Usable(b.Files()[i])
      modifies this`disk
      ensures first.Err?
      ensures second.Ok? ==> forall key ::
                Get(codec, second.value, key) ==
                  if HasName(next.Files(), next.options, key, Name(b.Files()[i], b.options))
                  then codec.decompress(b.writes[i].partial) else Served(html, next.options, next.Files(), key)
    {
      ghost var d := disk;
      first := BuildEmbedded(b.entries, b.options, b.writes);
      ghost var d1 := disk;
      ghost var k :| 0 <= k < |b.writes| && StopsAt(d, b.Files(), b.options, b.writes, k) && Stopped(d, b.Files(), b.options, b.writes, k, d1);
      StopIsUnique(d, b.Files(), b.options, b.writes, i, k);
      second := BuildEmbedded(next.entries, next.options, next.writes);
      forall key ensures ServedFrom(d1, next.Files(), next.options, key) ==
        if HasName(next.Files(), next.options, key, Name(b.Files()[i], b.options))
        then codec.decompress(b.writes[i].partial) else Served(html, next.options, next.Files(), key)
      {
        ServedAfterCut(d, b, i, d1, next.Files(), next.options, key);
      }
    }

    lemma CoversStep(assets: Assets, fs: seq<File>, i: nat, o: Options, d: map<string, Bytes>, d': map<string, Bytes>)
      requires i < |fs| && Usable(fs[i]) && Covers(assets, fs[..i], o, d)
      requires d.Keys <= d'.Keys && Name(fs[i], o) in d'
      ensures Covers(assets[fs[i].key.value := (fs[i].path, Name(fs[i], o))], fs[..i + 1], o, d')
    {
      var assets' := assets[fs[i].key.value := (fs[i].path, Name(fs[i], o))];
      var upTo := fs[..i + 1];
      assert upTo[..i] == fs[..i] && upTo[i] == fs[i];
      forall k ensures CoversKey(assets', upTo, o, d', k) {
        assert CoversKey(assets, fs[..i], o, d, k);
      }
    }
  }

  /** What the first pass needs of an entry: it can be walked and, if its hash is wanted, read. */
  predicate Scannable(e: WalkEntry, o: Options) {
    !e.Unreadable? && (e.Regular? && IsScript(e.file) && CanModify(o.disabled, SCRIPT_SRC) ==> e.file.content.Some?)
  }

  function RegularFiles(entries: seq<WalkEntry>): seq<File> {
    if entries == [] then [] else
      var before := RegularFiles(entries[..|entries| - 1]);
      var e := entries[|entries| - 1];
      if e.Regular? then before + [e.file] else before
  }

  // ---- the promises, on the entries and the configuration as they are given ----

  predicate HasKey(e: WalkEntry, key: string) {
    e.Regular? && e.file.key == Some(key)
  }

  /** Entry `i` is the last one with this key. */
  ghost predicate LastEntry(entries: seq<WalkEntry>, i: nat, key: string) {
    i < |entries| && HasKey(entries[i], key) && forall j :: i < j < |entries| ==> !HasKey(entries[j], key)
  }

  lemma {:induction false} LastEntryIsLast(entries: seq<WalkEntry>, i: nat, key: string)
    requires LastEntry(entries, i, key)
    ensures LastWithKey(RegularFiles(entries), key) == Some(entries[i].file)
  {
    var n := |entries| - 1;
    var before := RegularFiles(entries[..n]);
    if i < n {
      assert LastEntry(entries[..n], i, key);
      LastEntryIsLast(entries[..n], i, key);
    }
    if entries[n].Regular? { assert (before + [entries[n].file])[..|before|] == before; }
  }

  lemma {:induction false} NoEntryNoFile(entries: seq<WalkEntry>, key: string)
    requires forall i :: 0 <= i < |entries| ==> !HasKey(entries[i], key)
    ensures LastWithKey(RegularFiles(entries), key) == None
  {
    if entries != [] {
      var n := |entries| - 1;
      var before := RegularFiles(entries[..n]);
      NoEntryNoFile(entries[..n], key);
      if entries[n].Regular? { assert (before + [entries[n].file])[..|before|] == before; }
    }
  }

  /** A page under a policy is served rewritten, everything else as it is. */
  function Page(h: Html, o: Options, f: File): Bytes
    requires f.content.Some?
  {
    if f.ext == Some("html") && o.csp then h.rewrite(f.content.value) else f.content.value
  }

  ghost predicate ServesEntries(c: Codec, h: Html, entries: seq<WalkEntry>, o: Options, e: Embedded) {
    && (forall i: nat, key :: LastEntry(entries, i, key) && entries[i].file.content.Some? ==>
          Get(c, e, key) == Some(Page(h, o, entries[i].file)))
    && (forall key :: (forall i :: 0 <= i < |entries| ==> !HasKey(entries[i], key)) ==> Get(c, e, key) == None)
  }

  /** The default, or a list of disabled directives that does not name `script-src`. */
  predicate Modifiable(d: Disabled) {
    d == Flag(false) || (d.List? && "script-src" !in d.directives)
  }

  function ScriptText(f: File): Option<Bytes> {
    if f.ext == Some("js") || f.ext == Some("mjs") then f.content else None
  }

  function InlineTexts(h: Html, f: File): seq<Bytes> {
    if f.ext == Some("html") && f.content.Some? then h.scripts(f.content.value) else []
  }

  /** Each served script is allowed on every page and, under a policy, each inline script on its own. */
  ghost predicate AllowsScripts(c: Codec, h: Html, entries: seq<WalkEntry>, o: Options, e: Embedded) {
    Modifiable(o.disabled) ==>
      && (forall i: nat, key, page :: LastEntry(entries, i, key) && ScriptText(entries[i].file).Some? ==>
            c.cspHash(ScriptText(entries[i].file).value) in CspHashes(e, page))
      && (o.csp ==> forall i: nat, key, j :: LastEntry(entries, i, key) && 0 <= j < |InlineTexts(h, entries[i].file)| ==>
            c.cspHash(InlineTexts(h, entries[i].file)[j]) in CspHashes(e, key))
  }

  function PageHashes(h: Hashes, key: string): seq<string> {
    if key in h.inlineScripts then h.inlineScripts[key] else []
  }

  lemma {:induction false} HashAllSnoc(c: Codec, texts: seq<Bytes>, t: Bytes)
    ensures HashAll(c, texts + [t]) == HashAll(c, texts) + [c.cspHash(t)]
  {
    var a, b := HashAll(c, texts + [t]), HashAll(c, texts) + [c.cspHash(t)];
    assert forall i :: 0 <= i < |texts| ==> (texts + [t])[i] == texts[i];
    assert |a| == |b| && forall i :: 0 <= i < |a| ==> a[i] == b[i];
  }

  /** Every inline script of every page so far is hashed under the key of that page. */
  ghost predicate PagesHashed(c: Codec, h: Html, fs: seq<File>, hs: Hashes) {
    forall i, j :: 0 <= i < |fs| && IsPage(fs[i]) && Usable(fs[i]) && 0 <= j < |h.scripts(fs[i].content.value)| ==>
      c.cspHash(h.scripts(fs[i].content.value)[j]) in PageHashes(hs, fs[i].key.value)
  }

  lemma PagesStep(c: Codec, h: Html, fs: seq<File>, i: nat, hs: Hashes, hs': Hashes)
    requires i < |fs| && Usable(fs[i]) && PagesHashed(c, h, fs[..i], hs)
    requires hs'.inlineScripts == (
               if IsPage(fs[i])
               then hs.inlineScripts[fs[i].key.value := PageHashes(hs, fs[i].key.value) + HashAll(c, h.scripts(fs[i].content.value))]
               else hs.inlineScripts)
    ensures PagesHashed(c, h, fs[..i + 1], hs')
  {
    forall k, j | 0 <= k < i + 1 && IsPage(fs[k]) && Usable(fs[k]) && 0 <= j < |h.scripts(fs[k].content.value)|
      ensures c.cspHash(h.scripts(fs[k].content.value)[j]) in PageHashes(hs', fs[k].key.value)
    {
      var hash := c.cspHash(h.scripts(fs[k].content.value)[j]);
      if k < i {
        assert fs[..i][k] == fs[k];
        assert hash in PageHashes(hs, fs[k].key.value);
      } else {
        var all := HashAll(c, h.scripts(fs[i].content.value));
        assert all[j] == hash;
      }
    }
  }

  // ---- what is served ----

  /**
    From a sound cache, whatever earlier builds left in it, a successful build serves under each key
    exactly the mapped content of the last path with that key.
   */
  lemma ServesSource(b: Build, assets: Assets, hs: Hashes, fs: seq<File>, o: Options, disk: map<string, Bytes>, key: string)
    requires CacheOk(b.codec, disk) && b.Covers(assets, fs, o, disk)
    ensures forall k :: k in assets ==> assets[k].1 in disk
    ensures Get(b.codec, Embed(assets, disk, hs), key) == Served(b.html, o, fs, key)
  {
    forall k | k in assets ensures assets[k].1 in disk { assert b.CoversKey(assets, fs, o, disk, k); }
    assert b.CoversKey(assets, fs, o, disk, key);
    match LastWithKey(fs, key)
    case None =>
    case Some(f) => assert Holds(b.codec, disk, Mapped(b.html, o, f), f.ext);
  }

  lemma {:induction false} LastIsMember(fs: seq<File>, key: string)
    ensures match LastWithKey(fs, key)
            case None => forall i :: 0 <= i < |fs| ==> fs[i].key != Some(key)
            case Some(f) => f in fs && f.key == Some(key)
  {
    if fs != [] {
      LastIsMember(fs[..|fs| - 1], key);
    }
  }

  lemma {:induction false} ScriptHashMember(c: Codec, fs: seq<File>, i: nat)
    requires i < |fs| && IsScript(fs[i]) && fs[i].content.Some?
    ensures c.cspHash(fs[i].content.value) in ScriptHashes(c, fs)
  {
    var n := |fs| - 1;
    if i < n {
      assert fs[..n][i] == fs[i];
      ScriptHashMember(c, fs[..n], i);
    }
  }

  /** Every served script is allowed on every page exactly when `script-src` may be modified. */
  lemma ServedScriptsAllowed(b: Build, assets: Assets, hs: Hashes, fs: seq<File>, o: Options, disk: map<string, Bytes>, key: string, page: string)
    requires CacheOk(b.codec, disk) && b.Covers(assets, fs, o, disk)
    requires hs.scripts == if CanModify(o.disabled, SCRIPT_SRC) then ScriptHashes(b.codec, fs) else []
    requires LastWithKey(fs, key).Some? && IsScript(LastWithKey(fs, key).value)
    ensures forall k :: k in assets ==> assets[k].1 in disk
    ensures var e := Embed(assets, disk, hs);
            && Get(b.codec, e, key) == LastWithKey(fs, key).value.content
            && Get(b.codec, e, key).Some?
            && (CanModify(o.disabled, SCRIPT_SRC) ==> b.codec.cspHash(Get(b.codec, e, key).value) in CspHashes(e, page))
            && (!CanModify(o.disabled, SCRIPT_SRC) ==> e.globalHashes == hs.styles)
  {
    ServesSource(b, assets, hs, fs, o, disk, key);
    LastIsMember(fs, key);
    var f := LastWithKey(fs, key).value;
    assert b.CoversKey(assets, fs, o, disk, key);
    var i :| 0 <= i < |fs| && fs[i] == f;
    ScriptHashMember(b.codec, fs, i);
    var e := Embed(assets, disk, hs);
    assert [] + hs.styles == hs.styles;
    assert forall x :: x in hs.scripts ==> x in e.globalHashes;
  }

  /** Every inline script of a served page is allowed on that page. */
  lemma InlineScriptsAllowed(b: Build, assets: Assets, hs: Hashes, fs: seq<File>, o: Options, disk: map<string, Bytes>, key: string, j: nat)
    requires b.Covers(assets, fs, o, disk) && PagesHashed(b.codec, b.html, fs, hs) && j < |PageScripts(b.html, fs, key)|
    ensures forall k :: k in assets ==> assets[k].1 in disk
    ensures b.codec.cspHash(PageScripts(b.html, fs, key)[j]) in CspHashes(Embed(assets, disk, hs), key)
  {
    forall k | k in assets ensures assets[k].1 in disk { assert b.CoversKey(assets, fs, o, disk, k); }
    LastIsMember(fs, key);
    var f := LastWithKey(fs, key).value;
    var i :| 0 <= i < |fs| && fs[i] == f;
    assert b.codec.cspHash(b.html.scripts(fs[i].content.value)[j]) in PageHashes(hs, key);
  }
}
