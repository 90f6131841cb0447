/** The metadata of the mobile node (lib/mobile/node.go) says everything about its object: two objects
    with the same metadata are the same. */
module MetadataReading {
  import opened MobileMetadata

  // No string is written as the beginning of another, and a quotation mark ends it.
  ghost predicate Readable(escape: Escape) {
    && (forall c :: |escape(c)| > 0 && escape(c)[0] != '"')
    && forall c, d :: c != d ==> Parted(escape(c), escape(d))
  }

  // They differ where both still go on.
  ghost predicate Parted(a: string, b: string) {
    exists k :: 0 <= k < |a| && k < |b| && a[k] != b[k]
  }

  lemma PartedStay(a: string, b: string, x: string, y: string)
    requires Parted(a, b)
    ensures a + x != b + y
  {
    var k :| 0 <= k < |a| && k < |b| && a[k] != b[k];
    assert (a + x)[k] == a[k] && (b + y)[k] == b[k];
  }

  lemma Regroup(a: string, b: string, c: string)
    ensures a + b + c == a + (b + c)
  {}

  lemma Cancel(a: string, x: string, y: string)
    requires a + x == a + y
    ensures x == y
  {
    assert x == (a + x)[|a|..] == (a + y)[|a|..] == y;
  }

  lemma {:induction false} EscapedFirst(s: string, escape: Escape)
    requires |s| > 0
    ensures Escaped(s, escape) == escape(s[0]) + Escaped(s[1..], escape)
  {
    if |s| > 1 {
      EscapedFirst(s[..|s| - 1], escape);
      assert s[..|s| - 1][1..] == s[1..][..|s[1..]| - 1];
    } else {
      assert s[..0] == s[1..] == "";
    }
  }

  // A quotation mark comes first exactly if the string is at its end.
  lemma FirstMark(s: string, x: string, escape: Escape)
    requires Readable(escape)
    ensures var r := Escaped(s, escape) + "\"" + x; |r| > 0 && (r[0] == '"' <==> s == "")
  {
    if s != "" {
      EscapedFirst(s, escape);
      assert (Escaped(s, escape) + "\"" + x)[0] == escape(s[0])[0];
    }
  }

  lemma FirstDecides(s: string, t: string, x: string, y: string, escape: Escape)
    requires Readable(escape) && s != "" && t != "" && Escaped(s, escape) + x == Escaped(t, escape) + y
    ensures s[0] == t[0] && Escaped(s[1..], escape) + x == Escaped(t[1..], escape) + y
  {
    hide Escaped, Parted;
    EscapedFirst(s, escape);
    EscapedFirst(t, escape);
    Regroup(escape(s[0]), Escaped(s[1..], escape), x);
    Regroup(escape(t[0]), Escaped(t[1..], escape), y);
    var a, b := Escaped(s[1..], escape) + x, Escaped(t[1..], escape) + y;
    if s[0] != t[0] {
      PartedStay(escape(s[0]), escape(t[0]), a, b);
    }
    Cancel(escape(s[0]), a, b);
  }

  lemma {:induction false} EscapedDecides(s: string, t: string, x: string, y: string, escape: Escape)
    requires Readable(escape) && Escaped(s, escape) + "\"" + x == Escaped(t, escape) + "\"" + y
    ensures s == t && x == y
  {
    FirstMark(s, x, escape);
    FirstMark(t, y, escape);
    if s == "" {
      assert "\"" + x == "" + "\"" + x && "\"" + y == "" + "\"" + y;
      Cancel("\"", x, y);
    } else {
      Regroup(Escaped(s, escape), "\"", x);
      Regroup(Escaped(t, escape), "\"", y);
      FirstDecides(s, t, "\"" + x, "\"" + y, escape);
      Regroup(Escaped(s[1..], escape), "\"", x);
      Regroup(Escaped(t[1..], escape), "\"", y);
      EscapedDecides(s[1..], t[1..], x, y, escape);
    }
  }

  // What stands behind a string in quotes tells where it ends.
  lemma QuotedDecides(s: string, t: string, x: string, y: string, escape: Escape)
    requires Readable(escape) && Quoted(s, escape) + x == Quoted(t, escape) + y
    ensures s == t && x == y
  {
    var a, b := Escaped(s, escape) + "\"" + x, Escaped(t, escape) + "\"" + y;
    assert Quoted(s, escape) + x == "\"" + a;
    assert Quoted(t, escape) + y == "\"" + b;
    Cancel("\"", a, b);
    EscapedDecides(s, t, x, y, escape);
  }

  predicate Digit(c: char) { '0' <= c <= '9' }

  lemma {:induction false} OnlyDigits(n: nat)
    ensures forall k :: 0 <= k < |Digits(n)| ==> Digit(Digits(n)[k])
  {
    if n >= 10 {
      OnlyDigits(n / 10);
    }
  }

  lemma TwoDigits(n: nat)
    ensures n < 10 <==> |Digits(n)| == 1
    ensures n >= 10 ==> Digits(n)[..|Digits(n)| - 1] == Digits(n / 10)
    ensures Digits(n)[|Digits(n)| - 1] == "0123456789"[n % 10]
  {}

  lemma {:induction false} DigitsDecide(n: nat, m: nat)
    requires Digits(n) == Digits(m)
    ensures n == m
  {
    TwoDigits(n);
    TwoDigits(m);
    assert n % 10 == m % 10;
    if n >= 10 {
      DigitsDecide(n / 10, m / 10);
    }
  }

  lemma Shorter(a: string, b: string, x: string, y: string)
    requires |a| < |b| && a + x == b + y && x != ""
    ensures b[|a|] == x[0]
  {
    assert (a + x)[|a|] == x[0] && (b + y)[|a|] == b[|a|];
  }

  lemma NumberDecides(n: nat, m: nat, x: string, y: string)
    requires x != "" && y != "" && !Digit(x[0]) && !Digit(y[0]) && Digits(n) + x == Digits(m) + y
    ensures n == m && x == y
  {
    OnlyDigits(n);
    OnlyDigits(m);
    hide Digits;
    var a, b := Digits(n), Digits(m);
    if |a| < |b| {
      Shorter(a, b, x, y);
    } else if |b| < |a| {
      Shorter(b, a, y, x);
    }
    assert a == (a + x)[..|a|] == (b + y)[..|b|] == b;
    DigitsDecide(n, m);
    Cancel(a, x, y);
  }

  lemma Regroup2(a: string, b: string, c: string, d: string)
    ensures a + b + c + d == a + (b + (c + d))
  {
    Regroup(a + b, c, d);
    Regroup(a, b, c + d);
  }

  lemma KeyedNumber(key: string, n: nat, m: nat, x: string, y: string)
    requires x != "" && y != "" && !Digit(x[0]) && !Digit(y[0]) && key + (Digits(n) + x) == key + (Digits(m) + y)
    ensures n == m && x == y
  {
    hide Digits;
    Cancel(key, Digits(n) + x, Digits(m) + y);
    NumberDecides(n, m, x, y);
  }

  lemma KeyedText(key: string, s: string, t: string, x: string, y: string, escape: Escape)
    requires Readable(escape) && key + (Quoted(s, escape) + x) == key + (Quoted(t, escape) + y)
    ensures s == t && x == y
  {
    hide Quoted, Readable;
    Cancel(key, Quoted(s, escape) + x, Quoted(t, escape) + y);
    QuotedDecides(s, t, x, y, escape);
  }

  // A chunk and what follows, from the given field on.
  function SizeOn(c: Chunk, x: string): string { ",\"size\":" + (Digits(c.size) + (",\"encrypted\":true}" + x)) }

  function ShaOn(c: Chunk, x: string, escape: Escape): string {
    ",\"sha256\":" + (Quoted(c.sha, escape) + SizeOn(c, x))
  }

  function IdOn(c: Chunk, x: string, escape: Escape): string {
    ",\"id\":" + (Quoted(c.id, escape) + ShaOn(c, x, escape))
  }

  lemma ChunkOn(c: Chunk, x: string, escape: Escape)
    requires c.num >= 0
    ensures ChunkJson(c, escape) + x == "{\"num\":" + (Digits(c.num) + IdOn(c, x, escape))
  {
    hide Digits, Quoted;
    var n, id, sha, size := Digits(c.num), Quoted(c.id, escape), Quoted(c.sha, escape), Digits(c.size);
    var p := "{\"num\":" + n;
    var q := p + ",\"id\":" + id;
    var r := q + ",\"sha256\":" + sha;
    Regroup(r + ",\"size\":" + size, ",\"encrypted\":true}", x);
    Regroup2(r, ",\"size\":", size, ",\"encrypted\":true}" + x);
    Regroup2(q, ",\"sha256\":", sha, SizeOn(c, x));
    Regroup2(p, ",\"id\":", id, ShaOn(c, x, escape));
    Regroup("{\"num\":", n, IdOn(c, x, escape));
  }

  lemma ChunkDecides(c: Chunk, d: Chunk, x: string, y: string, escape: Escape)
    requires Readable(escape) && c.num >= 0 && d.num >= 0 && ChunkJson(c, escape) + x == ChunkJson(d, escape) + y
    ensures c == d && x == y
  {
    hide Digits, Quoted, Readable, ChunkJson;
    ChunkOn(c, x, escape);
    ChunkOn(d, y, escape);
    KeyedNumber("{\"num\":", c.num, d.num, IdOn(c, x, escape), IdOn(d, y, escape));
    KeyedText(",\"id\":", c.id, d.id, ShaOn(c, x, escape), ShaOn(d, y, escape), escape);
    KeyedText(",\"sha256\":", c.sha, d.sha, SizeOn(c, x), SizeOn(d, y), escape);
    KeyedNumber(",\"size\":", c.size, d.size, ",\"encrypted\":true}" + x, ",\"encrypted\":true}" + y);
    Cancel(",\"encrypted\":true}", x, y);
  }

  // The chunks behind the first.
  function More(chunks: seq<Chunk>, escape: Escape): string
    requires forall k :: 0 <= k < |chunks| ==> chunks[k].num >= 0
  {
    if |chunks| == 0 then "" else "," + ChunksJson(chunks, escape)
  }

  // What the last chunk adds.
  lemma ChunksLast(chunks: seq<Chunk>, escape: Escape)
    requires |chunks| > 0 && forall k :: 0 <= k < |chunks| ==> chunks[k].num >= 0
    ensures var init, last := ChunksJson(chunks[..|chunks| - 1], escape), ChunkJson(chunks[|chunks| - 1], escape);
      ChunksJson(chunks, escape) == if |chunks| > 1 then init + "," + last else last
  {
    hide ChunkJson;
    assert ChunksJson([], escape) == "";
  }

  lemma MoreLast(chunks: seq<Chunk>, escape: Escape)
    requires |chunks| > 0 && forall k :: 0 <= k < |chunks| ==> chunks[k].num >= 0
    ensures More(chunks, escape) ==
      More(chunks[..|chunks| - 1], escape) + "," + ChunkJson(chunks[|chunks| - 1], escape)
  {
    hide ChunkJson, ChunksJson;
    ChunksLast(chunks, escape);
    var init, last := ChunksJson(chunks[..|chunks| - 1], escape), ChunkJson(chunks[|chunks| - 1], escape);
    if |chunks| > 1 {
      Regroup2(",", init, ",", last);
      Regroup(init, ",", last);
    }
  }

  lemma {:induction false} ChunksFirst(chunks: seq<Chunk>, escape: Escape)
    requires |chunks| > 0 && forall k :: 0 <= k < |chunks| ==> chunks[k].num >= 0
    ensures ChunksJson(chunks, escape) == ChunkJson(chunks[0], escape) + More(chunks[1..], escape)
  {
    hide ChunkJson, ChunksJson, More;
    ChunksLast(chunks, escape);
    if |chunks| > 1 {
      var init, last := chunks[..|chunks| - 1], ChunkJson(chunks[|chunks| - 1], escape);
      ChunksFirst(init, escape);
      MoreLast(chunks[1..], escape);
      assert chunks[1..][..|chunks[1..]| - 1] == init[1..];
      Regroup2(ChunkJson(chunks[0], escape), More(init[1..], escape), ",", last);
      Regroup(More(init[1..], escape), ",", last);
    } else {
      NoMore(escape);
      assert chunks[1..] == [];
    }
  }

  lemma NoMore(escape: Escape)
    ensures More([], escape) == ""
  {}

  lemma FirstBrace(chunks: seq<Chunk>, escape: Escape)
    requires forall k :: 0 <= k < |chunks| ==> chunks[k].num >= 0
    ensures var r := ChunksJson(chunks, escape) + "]}"; |r| > 0 && (r[0] == ']' <==> chunks == [])
  {
    if chunks != [] {
      ChunksFirst(chunks, escape);
      ChunkOn(chunks[0], More(chunks[1..], escape), escape);
      assert (ChunksJson(chunks, escape) + "]}")[0] == '{';
    }
  }

  lemma {:induction false} ChunksDecide(c: seq<Chunk>, d: seq<Chunk>, escape: Escape)
    requires Readable(escape) && forall k :: 0 <= k < |c| ==> c[k].num >= 0
    requires forall k :: 0 <= k < |d| ==> d[k].num >= 0
    requires ChunksJson(c, escape) + "]}" == ChunksJson(d, escape) + "]}"
    ensures c == d
    decreases |c|, 0
  {
    hide Readable, ChunkJson, ChunksJson;
    FirstBrace(c, escape);
    FirstBrace(d, escape);
    if c != [] {
      ChunksFirst(c, escape);
      ChunksFirst(d, escape);
      var x, y := More(c[1..], escape), More(d[1..], escape);
      Regroup(ChunkJson(c[0], escape), x, "]}");
      Regroup(ChunkJson(d[0], escape), y, "]}");
      ChunkDecides(c[0], d[0], x + "]}", y + "]}", escape);
      assert x == (x + "]}")[..|x|] && y == (y + "]}")[..|y|];
      MoreDecides(c[1..], d[1..], escape);
      assert c == [c[0]] + c[1..] && d == [d[0]] + d[1..];
    }
  }

  lemma {:induction false} MoreDecides(c: seq<Chunk>, d: seq<Chunk>, escape: Escape)
    requires Readable(escape) && forall k :: 0 <= k < |c| ==> c[k].num >= 0
    requires forall k :: 0 <= k < |d| ==> d[k].num >= 0
    requires More(c, escape) + "]}" == More(d, escape) + "]}"
    ensures c == d
    decreases |c|, 1
  {
    hide Readable, ChunksJson;
    assert |More(c, escape)| == |More(d, escape)|;
    if c != [] && d != [] {
      Regroup(",", ChunksJson(c, escape), "]}");
      Regroup(",", ChunksJson(d, escape), "]}");
      Cancel(",", ChunksJson(c, escape) + "]}", ChunksJson(d, escape) + "]}");
      ChunksDecide(c, d, escape);
    }
  }

  // The metadata from the given field on.
  function ChunksOn(f: File, escape: Escape): string
    requires forall k :: 0 <= k < |f.chunks| ==> f.chunks[k].num >= 0
  {
    ",\"data_shards\":8,\"parity_shards\":4,\"chunk_list\":[" + (ChunksJson(f.chunks, escape) + "]}")
  }

  function CreatedOn(f: File, escape: Escape): string
    requires forall k :: 0 <= k < |f.chunks| ==> f.chunks[k].num >= 0
  {
    ",\"created_at\":" + (Quoted(f.createdAt, escape) +
    (",\"status\":\"stored\",\"sha256\":" + (Quoted(f.sha, escape) + ChunksOn(f, escape))))
  }

  function TokenOn(f: File, escape: Escape): string
    requires forall k :: 0 <= k < |f.chunks| ==> f.chunks[k].num >= 0
  {
    ",\"token\":" + (Quoted(f.token, escape) + (",\"size\":" + (Digits(f.size) + CreatedOn(f, escape))))
  }

  function NameOn(f: File, escape: Escape): string
    requires forall k :: 0 <= k < |f.chunks| ==> f.chunks[k].num >= 0
  {
    ",\"name\":" + (Quoted(f.name, escape) + (",\"folder\":" + (Quoted(f.folder, escape) + TokenOn(f, escape))))
  }

  lemma JsonOn(f: File, escape: Escape)
    requires forall k :: 0 <= k < |f.chunks| ==> f.chunks[k].num >= 0
    ensures Json(f, escape) == "{\"id\":" + (Quoted(f.id, escape) + NameOn(f, escape))
  {
    hide Digits, Quoted, ChunksJson;
    var id, name, folder, token, size := Quoted(f.id, escape), Quoted(f.name, escape), Quoted(f.folder, escape),
      Quoted(f.token, escape), Digits(f.size);
    var created, sha, chunks := Quoted(f.createdAt, escape), Quoted(f.sha, escape), ChunksJson(f.chunks, escape);
    var p := "{\"id\":" + id;
    var q := p + ",\"name\":" + name;
    var r := q + ",\"folder\":" + folder;
    var s := r + ",\"token\":" + token;
    var t := s + ",\"size\":" + size;
    var u := t + ",\"created_at\":" + created;
    var v := u + ",\"status\":\"stored\",\"sha256\":" + sha;
    Regroup2(v, ",\"data_shards\":8,\"parity_shards\":4,\"chunk_list\":[", chunks, "]}");
    Regroup2(u, ",\"status\":\"stored\",\"sha256\":", sha, ChunksOn(f, escape));
    Regroup2(t, ",\"created_at\":", created, ",\"status\":\"stored\",\"sha256\":" + (sha + ChunksOn(f, escape)));
    Regroup2(s, ",\"size\":", size, CreatedOn(f, escape));
    Regroup2(r, ",\"token\":", token, ",\"size\":" + (size + CreatedOn(f, escape)));
    Regroup2(q, ",\"folder\":", folder, TokenOn(f, escape));
    Regroup2(p, ",\"name\":", name, ",\"folder\":" + (folder + TokenOn(f, escape)));
    Regroup("{\"id\":", id, NameOn(f, escape));
  }

  /** What is in the metadata file can be read back: no two files have the same metadata. */
  lemma MetadataDecides(f: File, g: File, escape: Escape)
    requires forall k :: 0 <= k < |f.chunks| ==> f.chunks[k].num >= 0
    requires forall k :: 0 <= k < |g.chunks| ==> g.chunks[k].num >= 0
    requires Readable(escape) && Json(f, escape) == Json(g, escape)
    ensures f == g
  {
    hide Digits, Quoted, Readable, Json, ChunksJson;
    JsonOn(f, escape);
    JsonOn(g, escape);
    KeyedText("{\"id\":", f.id, g.id, NameOn(f, escape), NameOn(g, escape), escape);
    KeyedText(",\"name\":", f.name, g.name, ",\"folder\":" + (Quoted(f.folder, escape) + TokenOn(f, escape)),
      ",\"folder\":" + (Quoted(g.folder, escape) + TokenOn(g, escape)), escape);
    KeyedText(",\"folder\":", f.folder, g.folder, TokenOn(f, escape), TokenOn(g, escape), escape);
    KeyedText(",\"token\":", f.token, g.token, ",\"size\":" + (Digits(f.size) + CreatedOn(f, escape)),
      ",\"size\":" + (Digits(g.size) + CreatedOn(g, escape)), escape);
    KeyedNumber(",\"size\":", f.size, g.size, CreatedOn(f, escape), CreatedOn(g, escape));
    var key := ",\"status\":\"stored\",\"sha256\":";
    KeyedText(",\"created_at\":", f.createdAt, g.createdAt, key + (Quoted(f.sha, escape) + ChunksOn(f, escape)),
      key + (Quoted(g.sha, escape) + ChunksOn(g, escape)), escape);
    KeyedText(key, f.sha, g.sha, ChunksOn(f, escape), ChunksOn(g, escape), escape);
    Cancel(",\"data_shards\":8,\"parity_shards\":4,\"chunk_list\":[", ChunksJson(f.chunks, escape) + "]}",
      ChunksJson(g.chunks, escape) + "]}");
    ChunksDecide(f.chunks, g.chunks, escape);
  }

  // Such an encoder exists: a mark before what must be told apart.
  lemma ReadableExists() returns (escape: Escape)
    ensures Readable(escape)
  {
    escape := c => if c == '"' || c == '\\' then ['\\', c] else [c];
    forall c, d | c != d
      ensures Parted(escape(c), escape(d))
    {
      var a, b := escape(c), escape(d);
      assert a[0] != b[0] || (|a| == |b| == 2 && a[1] != b[1]);
    }
  }
}
