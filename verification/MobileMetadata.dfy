/** An object's metadata on the mobile node (lib/mobile/node.go) and how long it gets as JSON.  Strings
    are sequences of bytes, as len counts them. */
module MobileMetadata {

  datatype Chunk = Chunk(num: int, id: string, sha: string, size: nat)

  datatype File = File(id: string, name: string, folder: string, token: string, size: nat, createdAt: string,
    sha: string, chunks: seq<Chunk>)

  // What the JSON encoder writes for one byte of a string: at most \u00xx.
  type Escape = f: char -> string | EscapeLaw(f) witness c => [c]

  ghost predicate EscapeLaw(f: char -> string) {
    (forall c :: |f(c)| <= 6) && (forall c :: Plain(c) ==> f(c) == [c])
  }

  // Characters of identifiers, digests and times.
  predicate Plain(c: char) { '0' <= c <= '9' || 'a' <= c <= 'f' || c in "-:.TZ" }

  predicate AllPlain(s: string) { forall k :: 0 <= k < |s| ==> Plain(s[k]) }

  function Escaped(s: string, escape: Escape): string {
    if |s| == 0 then "" else Escaped(s[..|s| - 1], escape) + escape(s[|s| - 1])
  }

  function Quoted(s: string, escape: Escape): string { "\"" + Escaped(s, escape) + "\"" }

  function Digits(n: nat): (r: string)
    ensures |r| > 0
  {
    if n < 10 then ["0123456789"[n]] else Digits(n / 10) + ["0123456789"[n % 10]]
  }

  function ChunkJson(c: Chunk, escape: Escape): string
    requires c.num >= 0
  {
    "{\"num\":" + Digits(c.num) + ",\"id\":" + Quoted(c.id, escape) + ",\"sha256\":" + Quoted(c.sha, escape) +
    ",\"size\":" + Digits(c.size) + ",\"encrypted\":true}"
  }

  function ChunksJson(chunks: seq<Chunk>, escape: Escape): string
    requires forall k :: 0 <= k < |chunks| ==> chunks[k].num >= 0
  {
    if |chunks| == 0 then "" else
      ChunksJson(chunks[..|chunks| - 1], escape) + (if |chunks| > 1 then ","
        else "") + ChunkJson(chunks[|chunks| - 1], escape)
  }

  // json.Marshal of a stored file.
  function Json(f: File, escape: Escape): string
    requires forall k :: 0 <= k < |f.chunks| ==> f.chunks[k].num >= 0
  {
    "{\"id\":" + Quoted(f.id, escape) + ",\"name\":" + Quoted(f.name, escape) +
    ",\"folder\":" + Quoted(f.folder, escape) +
    ",\"token\":" + Quoted(f.token, escape) + ",\"size\":" + Digits(f.size) +
    ",\"created_at\":" + Quoted(f.createdAt, escape) +
    ",\"status\":\"stored\",\"sha256\":" + Quoted(f.sha, escape) +
    ",\"data_shards\":8,\"parity_shards\":4,\"chunk_list\":[" +
    ChunksJson(f.chunks, escape) + "]}"
  }

  // ---- lengths ----

  lemma {:induction false} EscapedLength(s: string, escape: Escape)
    ensures |Escaped(s, escape)| <= 6 * |s|
    ensures AllPlain(s) ==> |Escaped(s, escape)| == |s|
  {
    if |s| > 0 {
      EscapedLength(s[..|s| - 1], escape);
    }
  }

  function Power10(k: nat): nat { if k == 0 then 1 else 10 * Power10(k - 1) }

  lemma {:induction false} DigitsLength(n: nat, k: nat)
    requires k > 0 && n < Power10(k)
    ensures |Digits(n)| <= k
  {
    if n >= 10 {
      assert Power10(1) == 10;
      DigitsLength(n / 10, k - 1);
    }
  }

  // Identifiers have 36 characters, digests 64.
  predicate Shaped(id: string, sha: string) {
    |id| == 36 && |sha| == 64 && AllPlain(id) && AllPlain(sha)
  }

  lemma ChunkLength(c: Chunk, escape: Escape)
    requires 0 <= c.num < 100 && c.size < 100000000 && Shaped(c.id, c.sha)
    ensures |ChunkJson(c, escape)| <= 170
  {
    EscapedLength(c.id, escape);
    EscapedLength(c.sha, escape);
    Power10To8();
    DigitsLength(c.num, 2);
    DigitsLength(c.size, 8);
  }

  lemma Power10To8()
    ensures Power10(2) == 100 && Power10(8) == 100000000
  {
    assert Power10(3) == 1000 && Power10(5) == 100000;
  }

  lemma {:induction false} ChunksLength(chunks: seq<Chunk>, escape: Escape)
    requires forall k :: 0 <= k < |chunks| ==>
      0 <= chunks[k].num < 100 && chunks[k].size < 100000000 && Shaped(chunks[k].id, chunks[k].sha)
    ensures |ChunksJson(chunks, escape)| <= 171 * |chunks|
  {
    if |chunks| > 0 {
      ChunksLength(chunks[..|chunks| - 1], escape);
      ChunkLength(chunks[|chunks| - 1], escape);
    }
  }

  // The limits put checks: the token, the name and the folder.
  predicate Limited(token: string, name: string, folder: string) {
    0 < |token| <= 256 && 0 < |name| <= 200 && |folder| <= 200
  }

  /** The metadata of a stored file takes fewer than 7000 bytes. */
  lemma MetadataLength(f: File, escape: Escape)
    requires Limited(f.token, f.name, f.folder) && f.size < 100000000 && |f.chunks| == 12 && Shaped(f.id, f.sha)
    requires |f.createdAt| <= 30 && AllPlain(f.createdAt)
    requires forall k :: 0 <= k < 12 ==>
      0 <= f.chunks[k].num < 100 && f.chunks[k].size < 100000000 && Shaped(f.chunks[k].id, f.chunks[k].sha)
    ensures |Json(f, escape)| < 7000
  {
    EscapedLength(f.id, escape);
    EscapedLength(f.name, escape);
    EscapedLength(f.folder, escape);
    EscapedLength(f.token, escape);
    EscapedLength(f.createdAt, escape);
    EscapedLength(f.sha, escape);
    Power10To8();
    DigitsLength(f.size, 8);
    ChunksLength(f.chunks, escape);
  }

  /** Twelve sealed shards and the metadata stay within twice the object and 8192 bytes. */
  lemma WithinReserve(len: nat, per: nat, shards: nat, metadata: nat)
    requires len > 0 && 8 * per < len + 8 && shards == 12 * (per + 28) && metadata < 7000
    ensures shards + metadata <= 2 * len + 8192
  {}
}
