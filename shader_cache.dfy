/** The on-disk SPIR-V blob cache of the Vulkan renderer (Vulkan::ShaderCache).

    One file per entry, named after the decimal hash of the shader source
    followed by the decimal stage number, holding the raw SPIR-V words.
    The file system is a map from path to byte contents, std::hash of a
    string is the parameter `h`, and words are stored little-endian, as a
    reinterpret_cast writes them on the x86-64 hosts the emulator runs on. */
module ShaderCacheFiles {
  import opened Common

  /** std::hash<std::string> of the running process. */
  type StringHash = string -> u64

  /** vk::ShaderStageFlagBits, as the 32-bit flag value the key is built from. */
  type StageFlags = u32

  type Files = map<string, seq<byte>>

  // ---------------------------------------------------------------------
  // Words <-> bytes
  // ---------------------------------------------------------------------

  function WordBytes(w: u32): (bs: seq<byte>)
    ensures |bs| == 4
  {
    [w % 0x100, w / 0x100 % 0x100, w / 0x100 / 0x100 % 0x100, w / 0x100 / 0x100 / 0x100]
  }

  function WordOf(b0: byte, b1: byte, b2: byte, b3: byte): u32 {
    b0 + 0x100 * b1 + 0x1_0000 * b2 + 0x100_0000 * b3
  }

  lemma WordRoundTrip(w: u32)
    ensures var bs := WordBytes(w); WordOf(bs[0], bs[1], bs[2], bs[3]) == w
  {
  }

  /** Quotient and remainder by 256 are determined by x = 256 * q + r. */
  lemma DivMod256(x: int, q: int, r: int)
    requires 0 <= r < 0x100 && x == 0x100 * q + r
    ensures x / 0x100 == q && x % 0x100 == r
  {
  }

  lemma BytesRoundTrip(b0: byte, b1: byte, b2: byte, b3: byte)
    ensures WordBytes(WordOf(b0, b1, b2, b3)) == [b0, b1, b2, b3]
  {
    var w := WordOf(b0, b1, b2, b3);
    DivMod256(w, b1 + 0x100 * b2 + 0x1_0000 * b3, b0);
    DivMod256(w / 0x100, b2 + 0x100 * b3, b1);
    DivMod256(w / 0x100 / 0x100, b3, b2);
  }

  /** What SaveShader writes: every word as four bytes, in order. */
  function EncodeWords(ws: seq<u32>): (bs: seq<byte>)
    ensures |bs| == 4 * |ws|
  {
    if ws == [] then [] else WordBytes(ws[0]) + EncodeWords(ws[1..])
  }

  /** What LoadShader reads from a file of the given contents: as many whole
      words as fit, so a trailing partial word is dropped. */
  function DecodeWords(bs: seq<byte>): (ws: seq<u32>)
    ensures |ws| == |bs| / 4
  {
    if |bs| < 4 then [] else [WordOf(bs[0], bs[1], bs[2], bs[3])] + DecodeWords(bs[4..])
  }

  lemma {:induction false} DecodeEncode(ws: seq<u32>)
    ensures DecodeWords(EncodeWords(ws)) == ws
  {
    if ws != [] {
      var bs := EncodeWords(ws);
      assert bs[..4] == WordBytes(ws[0]);
      assert bs[4..] == EncodeWords(ws[1..]);
      WordRoundTrip(ws[0]);
      DecodeEncode(ws[1..]);
    }
  }

  /** Reading a file and writing the words back reproduces the file up to
      its last whole word. */
  lemma {:induction false} EncodeDecode(bs: seq<byte>)
    ensures EncodeWords(DecodeWords(bs)) == bs[..4 * (|bs| / 4)]
  {
    if |bs| >= 4 {
      var ws := DecodeWords(bs);
      assert ws[1..] == DecodeWords(bs[4..]);
      BytesRoundTrip(bs[0], bs[1], bs[2], bs[3]);
      EncodeDecode(bs[4..]);
      assert bs[..4 * (|bs| / 4)] == bs[..4] + bs[4..][..4 * (|bs[4..]| / 4)];
    }
  }

  // ---------------------------------------------------------------------
  // The file store
  // ---------------------------------------------------------------------

  /** The words LoadShader returns for the file at `path`: none when the
      file cannot be opened. */
  function ReadWords(files: Files, path: string): (ws: seq<u32>)
    ensures path !in files ==> ws == []
    ensures path in files ==> EncodeWords(ws) == files[path][..4 * (|files[path]| / 4)]
  {
    if path in files then
      EncodeDecode(files[path]);
      DecodeWords(files[path])
    else []
  }

  /** The files after SaveShader truncates and rewrites `path`. */
  function WriteWords(files: Files, path: string, ws: seq<u32>): (files': Files)
    ensures files'.Keys == files.Keys + {path}
    ensures ReadWords(files', path) == ws
    ensures forall p :: p in files && p != path ==> files'[p] == files[p]
  {
    DecodeEncode(ws);
    files[path := EncodeWords(ws)]
  }

  /** The disk the cache directory lives on. */
  class FileSystem {
    var files: Files

    constructor (initial: Files)
      ensures files == initial
    {
      files := initial;
    }
  }

  /** Vulkan::ShaderCache. Its only state is the directory it was built with. */
  class ShaderCache {
    const cacheDirectory: string

    /** create_directories has no observable effect on the file map. */
    constructor (cacheDir: string)
      ensures cacheDirectory == cacheDir
    {
      cacheDirectory := cacheDir;
    }

    /** The decimal hash of the source followed by the decimal stage value. */
    function GenerateShaderHash(h: StringHash, shaderSource: string, stage: StageFlags): (key: string)
      ensures |key| > 0 && AllDigits(key)
      ensures key[0] == '0' ==> |key| == 1
      ensures DecimalValue(key) == h(shaderSource + ToDecimal(stage))
    {
      DecimalRoundTrip(h(shaderSource + ToDecimal(stage)));
      ToDecimal(h(shaderSource + ToDecimal(stage)))
    }

    /** `<dir>/<key>.spv`; the directory, the separator, the key and the
        extension can be read back off the path. */
    function GetCachePath(key: string): (path: string)
      ensures |path| == |cacheDirectory| + |key| + 5
      ensures path[..|cacheDirectory|] == cacheDirectory && path[|cacheDirectory|] == '/'
      ensures path[|cacheDirectory| + 1..|path| - 4] == key
      ensures path[|path| - 4..] == ".spv"
    {
      cacheDirectory + "/" + key + ".spv"
    }

    /** The path LoadShader and SaveShader both compute for (source, stage):
        the cache directory, '/', a canonical decimal number equal to the hash
        of the source followed by the decimal stage, and ".spv". */
    function EntryPath(h: StringHash, shaderSource: string, stage: StageFlags): (path: string)
      ensures |path| > |cacheDirectory| + 5
      ensures path[..|cacheDirectory| + 1] == cacheDirectory + "/"
      ensures path[|path| - 4..] == ".spv"
      ensures var key := path[|cacheDirectory| + 1..|path| - 4];
              && AllDigits(key) && (key[0] == '0' ==> |key| == 1)
              && DecimalValue(key) == h(shaderSource + ToDecimal(stage))
    {
      GetCachePath(GenerateShaderHash(h, shaderSource, stage))
    }

    method LoadShader(fs: FileSystem, h: StringHash, shaderSource: string, stage: StageFlags)
      returns (spirv: seq<u32>)
      ensures spirv == ReadWords(fs.files, EntryPath(h, shaderSource, stage))
    {
      var path := GetCachePath(GenerateShaderHash(h, shaderSource, stage));
      if path !in fs.files {
        return [];
      }
      spirv := DecodeWords(fs.files[path]);
    }

    method SaveShader(fs: FileSystem, h: StringHash, shaderSource: string, stage: StageFlags,
                      spirv: seq<u32>)
      modifies fs
      ensures fs.files == WriteWords(old(fs.files), EntryPath(h, shaderSource, stage), spirv)
    {
      var path := GetCachePath(GenerateShaderHash(h, shaderSource, stage));
      fs.files := fs.files[path := EncodeWords(spirv)];
    }
  }

  // ---------------------------------------------------------------------
  // Properties of the key scheme and of the store
  // ---------------------------------------------------------------------

  /** Two entries share a key exactly when their hashed strings hash equally. */
  lemma SameKeyIffSameHash(cache: ShaderCache, h: StringHash, s1: string, st1: StageFlags,
                           s2: string, st2: StageFlags)
    ensures cache.GenerateShaderHash(h, s1, st1) == cache.GenerateShaderHash(h, s2, st2)
        <==> h(s1 + ToDecimal(st1)) == h(s2 + ToDecimal(st2))
  {
    ToDecimalInjective(h(s1 + ToDecimal(st1)), h(s2 + ToDecimal(st2)));
  }

  /** Two entries share a file exactly when they share a key. */
  lemma SamePathIffSameKey(cache: ShaderCache, k1: string, k2: string)
    ensures cache.GetCachePath(k1) == cache.GetCachePath(k2) <==> k1 == k2
  {
    if cache.GetCachePath(k1) == cache.GetCachePath(k2) {
      var p := cache.GetCachePath(k1);
      assert k1 == p[|cache.cacheDirectory| + 1..|p| - 4];
    }
  }

  /** The key sees only the concatenation: no separator sits between the
      source and the stage number. */
  lemma KeyDependsOnConcatenation(cache: ShaderCache, h: StringHash, s1: string, st1: StageFlags,
                                  s2: string, st2: StageFlags)
    requires s1 + ToDecimal(st1) == s2 + ToDecimal(st2)
    ensures cache.EntryPath(h, s1, st1) == cache.EntryPath(h, s2, st2)
  {
  }

  /** An instance of that: source "x3" as a tessellation-control shader (flag 2)
      and source "x" as a compute shader (flag 32) share one file. */
  lemma ConcatenationCollision(cache: ShaderCache, h: StringHash)
    ensures cache.EntryPath(h, "x3", 2) == cache.EntryPath(h, "x", 32)
  {
    assert ToDecimal(2) == "2";
    assert ToDecimal(32) == ToDecimal(3) + [DigitChar(2)] == "32";
    assert "x3" + "2" == "x" + "32";
  }

  /** Saving under one (source, stage) leaves what every entry of a
      differently hashed (source, stage) loads untouched. */
  lemma SaveOtherEntryInvisible(cache: ShaderCache, files: Files, h: StringHash,
                                s1: string, st1: StageFlags, s2: string, st2: StageFlags,
                                spirv: seq<u32>)
    requires h(s1 + ToDecimal(st1)) != h(s2 + ToDecimal(st2))
    ensures var p1 := cache.EntryPath(h, s1, st1);
            var p2 := cache.EntryPath(h, s2, st2);
            ReadWords(WriteWords(files, p1, spirv), p2) == ReadWords(files, p2)
  {
    SameKeyIffSameHash(cache, h, s1, st1, s2, st2);
    SamePathIffSameKey(cache, cache.GenerateShaderHash(h, s1, st1),
                       cache.GenerateShaderHash(h, s2, st2));
  }

  /** Under a hash collision, an entry saved for one source is what the
      other source loads. */
  lemma HashCollisionSharesEntry(cache: ShaderCache, files: Files, h: StringHash,
                                 s1: string, st1: StageFlags, s2: string, st2: StageFlags,
                                 spirv: seq<u32>)
    requires h(s1 + ToDecimal(st1)) == h(s2 + ToDecimal(st2))
    ensures var p1 := cache.EntryPath(h, s1, st1);
            ReadWords(WriteWords(files, p1, spirv), cache.EntryPath(h, s2, st2)) == spirv
  {
  }

  /** The last save wins. */
  lemma LastSaveWins(files: Files, path: string, first: seq<u32>, second: seq<u32>)
    ensures WriteWords(WriteWords(files, path, first), path, second) == WriteWords(files, path, second)
  {
  }

  /** A file shorter than one word (for example a truncated one) loads as no
      words, which the caller reads as a miss. */
  lemma TruncatedFileIsMiss(files: Files, path: string)
    requires path in files && |files[path]| < 4
    ensures ReadWords(files, path) == []
  {
  }

  /** A file cut after at least one whole word is read without complaint:
      it loads as the whole words that survived, not as a miss. */
  lemma TruncatedFileLoadsWholeWords(files: Files, path: string, whole: seq<u32>, tail: seq<byte>)
    requires path in files && files[path] == EncodeWords(whole) + tail && |tail| < 4
    ensures ReadWords(files, path) == whole
  {
    var bs := files[path];
    assert |bs| / 4 == |whole|;
    assert bs[..4 * (|bs| / 4)] == EncodeWords(whole);
    DecodeEncode(whole);
    EncodeWordsInjective(ReadWords(files, path), whole);
  }

  lemma {:induction false} EncodeWordsInjective(a: seq<u32>, b: seq<u32>)
    requires EncodeWords(a) == EncodeWords(b)
    ensures a == b
  {
    DecodeEncode(a);
    DecodeEncode(b);
  }

  /** LoadShader returns floor(size / 4) words. */
  lemma LoadedWordCount(files: Files, path: string)
    requires path in files
    ensures |ReadWords(files, path)| == |files[path]| / 4
  {
  }
}
