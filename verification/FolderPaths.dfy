/** Folder names as text (api/files_service.py): cleaning them, and what the joined text says about the
    segments. */
module FolderPaths {
  import opened Wrappers

  datatype FolderError = DotDot | IllegalCharacter | TooLong | TooDeep
  datatype Cleaned<T> = Clean(value: T) | Refused(error: FolderError)

  // What str.strip removes; all the module needs is that it is not the slash.
  type Space = f: char -> bool | !f('/') witness c => c == ' '

  predicate Slash(c: char) { c == '/' }

  // [\x00-\x1f<>:"\|?*]
  predicate Illegal(c: char) { c < ' ' || c in "<>:\"\\|?*" }

  function StripLeft(s: string, drop: char -> bool): (r: string)
    ensures |r| <= |s|
  {
    if |s| > 0 && drop(s[0]) then StripLeft(s[1..], drop) else s
  }

  function StripRight(s: string, drop: char -> bool): (r: string)
    ensures |r| <= |s|
  {
    if |s| > 0 && drop(s[|s| - 1]) then StripRight(s[..|s| - 1], drop) else s
  }

  function Strip(s: string, drop: char -> bool): string { StripRight(StripLeft(s, drop), drop) }

  function SplitSlash(s: string): (r: seq<string>)
    ensures |r| > 0
  {
    if |s| == 0 then [""]
    else
      var rest := SplitSlash(s[1..]);
      if s[0] == '/' then [""] + rest else [[s[0]] + rest[0]] + rest[1..]
  }

  function Join(parts: seq<string>): string {
    if |parts| == 0 then "" else if |parts| == 1 then parts[0] else parts[0] + "/" + Join(parts[1..])
  }

  // ---- cleaning ----

  // A segment as it comes out.
  predicate Good(s: string, space: Space) {
    && 0 < |s| <= 128 && s != "." && s != ".." && '/' !in s && (forall c :: c in s ==> !Illegal(c))
    && !space(s[0]) && !space(s[|s| - 1])
  }

  // The segments kept of the first k.
  function Kept(segments: seq<string>, k: nat, space: Space): Cleaned<seq<string>>
    requires k <= |segments|
  {
    if k == 0 then Clean([])
    else
      match Kept(segments, k - 1, space)
      case Refused(e) => Refused(e)
      case Clean(parts) =>
        var s := Strip(segments[k - 1], space);
        if s == "" || s == "." then Clean(parts)
        else if s == ".." then Refused(DotDot)
        else if exists c :: c in s && Illegal(c) then Refused(IllegalCharacter)
        else if |s| > 128 then Refused(TooLong)
        else Clean(parts + [s])
  }

  // The segments of a folder name; none for the root.
  function Segments(raw: Option<string>, space: Space): Cleaned<seq<string>> {
    var text := if raw == None then "" else Strip(Strip(raw.value, space), Slash);
    if text == "" || text == "." then Clean([])
    else
      match Kept(SplitSlash(text), |SplitSlash(text)|, space)
      case Refused(e) => Refused(e)
      case Clean(parts) => if |parts| > 24 then Refused(TooDeep) else Clean(parts)
  }

  /** normalize_folder: the segments that are kept, joined again. */
  method NormalizeFolder(raw: Option<string>, space: Space) returns (r: Cleaned<string>)
    ensures match Segments(raw, space)
      case Refused(e) => r == Refused(e)
      case Clean(parts) => r == Clean(Join(parts))
  {
    if raw == None {
      return Clean("");
    }
    var text := Strip(Strip(raw.value, space), Slash);
    if text == "" || text == "." {
      return Clean("");
    }
    var parts: seq<string> := [];
    var segments := SplitSlash(text);
    for k := 0 to |segments|
      invariant Kept(segments, k, space) == Clean(parts)
    {
      var segment := Strip(segments[k], space);
      if segment == "" || segment == "." {
        continue;
      }
      var illegal := HasIllegal(segment);
      if segment == ".." || illegal || |segment| > 128 {
        var error := if segment == ".." then DotDot else if illegal then IllegalCharacter else TooLong;
        RefusedStays(segments, k + 1, |segments|, space, error);
        return Refused(error);
      }
      parts := parts + [segment];
    }
    if |parts| > 24 {
      return Refused(TooDeep);
    }
    return Clean(Join(parts));
  }

  method HasIllegal(s: string) returns (r: bool)
    ensures r <==> exists c :: c in s && Illegal(c)
  {
    for k := 0 to |s|
      invariant forall j :: 0 <= j < k ==> !Illegal(s[j])
    {
      if Illegal(s[k]) {
        return true;
      }
    }
    return false;
  }

  // ---- what cleaning means ----

  /** The characters that are refused: control characters and nine others. */
  lemma IllegalIs(c: char)
    ensures Illegal(c) <==>
      c as int < 32 || c == '<' || c == '>' || c == ':' || c == '"' || c == '\\' || c == '|' || c == '?' || c == '*'
  {}

  /** Stripping takes away characters to be dropped from both ends, and all of them. */
  lemma {:induction false} StripIs(s: string, drop: char -> bool)
    ensures exists a, b :: s == a + Strip(s, drop) + b && (forall c :: c in a + b ==> drop(c))
    ensures Strip(s, drop) != "" ==> !drop(Strip(s, drop)[0]) && !drop(Strip(s, drop)[|Strip(s, drop)| - 1])
  {
    StripStripped(s, drop);
    var a := LeftIs(s, drop);
    var b := RightIs(StripLeft(s, drop), drop);
    hide StripLeft, StripRight;
    assert s == a + Strip(s, drop) + b;
  }

  lemma {:induction false} LeftIs(s: string, drop: char -> bool) returns (a: string)
    ensures s == a + StripLeft(s, drop) && forall c :: c in a ==> drop(c)
  {
    a := "";
    if |s| > 0 && drop(s[0]) {
      a := LeftIs(s[1..], drop);
      a := [s[0]] + a;
    }
  }

  lemma {:induction false} RightIs(s: string, drop: char -> bool) returns (b: string)
    ensures s == StripRight(s, drop) + b && forall c :: c in b ==> drop(c)
  {
    b := "";
    if |s| > 0 && drop(s[|s| - 1]) {
      b := RightIs(s[..|s| - 1], drop);
      b := b + [s[|s| - 1]];
    }
  }

  // Why a segment is refused.
  ghost function Complaint(s: string): Option<FolderError> {
    if s == ".." then Some(DotDot)
    else if exists c :: c in s && Illegal(c) then Some(IllegalCharacter)
    else if |s| > 128 then Some(TooLong)
    else None
  }

  // Segment j as it is looked at.
  function Trimmed(segments: seq<string>, j: nat, space: Space): string
    requires j < |segments|
  {
    Strip(segments[j], space)
  }

  /** The first complaint about a segment decides; without one, the segments that are neither empty nor a dot
      come out, all of them and in order. */
  lemma {:induction false} KeptIs(segments: seq<string>, k: nat, space: Space) returns (at: seq<nat>)
    requires k <= |segments|
    ensures Kept(segments, k, space).Refused? ==>
      exists j: nat :: j < k && Complaint(Trimmed(segments, j, space)) == Some(Kept(segments, k, space).error) &&
        forall i: nat :: i < j ==> Complaint(Trimmed(segments, i, space)) == None
    ensures Kept(segments, k, space).Clean? ==>
      forall i: nat :: i < k ==> Complaint(Trimmed(segments, i, space)) == None
    ensures Kept(segments, k, space).Clean? ==>
      |at| == |Kept(segments, k, space).value| && forall i, j :: 0 <= i < j < |at| ==> at[i] < at[j]
    ensures Kept(segments, k, space).Clean? ==>
      forall j :: 0 <= j < |at| ==>
        at[j] < k && Kept(segments, k, space).value[j] == Trimmed(segments, at[j], space)
    ensures Kept(segments, k, space).Clean? ==>
      forall i: nat :: i in at <==> i < k && Trimmed(segments, i, space) != "" && Trimmed(segments, i, space) != "."
  {
    hide Strip;
    at := [];
    if k > 0 {
      at := KeptIs(segments, k - 1, space);
      var s := Trimmed(segments, k - 1, space);
      if Kept(segments, k, space).Clean? {
        if s != "" && s != "." {
          at := at + [k - 1];
        }
      } else if Kept(segments, k - 1, space).Clean? {
        assert Complaint(Trimmed(segments, k - 1, space)) == Some(Kept(segments, k, space).error);
      }
    }
  }

  /** More than 24 segments are refused, too. */
  lemma SegmentsAre(raw: string, space: Space)
    ensures var text := Strip(Strip(raw, space), Slash);
      var all := SplitSlash(text);
      Segments(None, space) == Clean([]) &&
      Segments(Some(raw), space) ==
        if text == "" || text == "." then Clean([])
        else if Kept(all, |all|, space).Clean? && |Kept(all, |all|, space).value| > 24 then Refused(TooDeep)
        else Kept(all, |all|, space)
  {}

  lemma {:induction false} RefusedStays(segments: seq<string>, k: nat, n: nat, space: Space, e: FolderError)
    requires k <= n <= |segments| && Kept(segments, k, space) == Refused(e)
    ensures Kept(segments, n, space) == Refused(e)
    decreases n
  {
    if k < n {
      RefusedStays(segments, k, n - 1, space, e);
    }
  }

  // ---- splitting and joining ----

  lemma {:induction false} SplitOne(s: string)
    requires '/' !in s
    ensures SplitSlash(s) == [s]
  {
    if |s| > 0 {
      assert '/' !in s[1..];
      SplitOne(s[1..]);
      assert s[0] in s && [s[0]] + s[1..] == s;
    }
  }

  lemma {:induction false} SplitAfter(s: string, t: string)
    requires '/' !in s
    ensures SplitSlash(s + "/" + t) == [s] + SplitSlash(t)
  {
    if |s| == 0 {
      assert s + "/" + t == "/" + t && ("/" + t)[1..] == t;
    } else {
      assert '/' !in s[1..];
      SplitAfter(s[1..], t);
      var all, rest := s + "/" + t, [s[1..]] + SplitSlash(t);
      assert all[1..] == s[1..] + "/" + t && all[0] == s[0] && s[0] in s;
      assert [s[0]] + rest[0] == s && rest[1..] == SplitSlash(t);
    }
  }

  /** Joined segments split into the same segments; so different folders have different names. */
  lemma {:induction false} SplitJoin(parts: seq<string>)
    requires |parts| > 0 && forall k :: 0 <= k < |parts| ==> '/' !in parts[k]
    ensures SplitSlash(Join(parts)) == parts
  {
    if |parts| == 1 {
      SplitOne(parts[0]);
    } else {
      SplitJoin(parts[1..]);
      SplitAfter(parts[0], Join(parts[1..]));
    }
  }

  lemma {:induction false} KeptGood(segments: seq<string>, k: nat, space: Space)
    requires k <= |segments| && Kept(segments, k, space).Clean? &&
      forall j :: 0 <= j < |segments| ==> '/' !in segments[j]
    ensures forall j :: 0 <= j < |Kept(segments, k, space).value| ==> Good(Kept(segments, k, space).value[j], space)
  {
    if k > 0 {
      KeptGood(segments, k - 1, space);
      StripStripped(segments[k - 1], space);
    }
  }

  lemma {:induction false} StripStripped(s: string, drop: char -> bool)
    ensures forall c :: c in Strip(s, drop) ==> c in s
    ensures Strip(s, drop) != "" ==> !drop(Strip(s, drop)[0]) && !drop(Strip(s, drop)[|Strip(s, drop)| - 1])
  {
    LeftStripped(s, drop);
    RightStripped(StripLeft(s, drop), drop);
  }

  lemma {:induction false} LeftStripped(s: string, drop: char -> bool)
    ensures forall c :: c in StripLeft(s, drop) ==> c in s
    ensures StripLeft(s, drop) != "" ==> !drop(StripLeft(s, drop)[0])
  {
    if |s| > 0 && drop(s[0]) {
      LeftStripped(s[1..], drop);
    }
  }

  lemma {:induction false} RightStripped(s: string, drop: char -> bool)
    ensures StripRight(s, drop) <= s
    ensures StripRight(s, drop) != "" ==> !drop(StripRight(s, drop)[|StripRight(s, drop)| - 1])
  {
    if |s| > 0 && drop(s[|s| - 1]) {
      RightStripped(s[..|s| - 1], drop);
    }
  }

  lemma {:induction false} SplitHasNone(s: string)
    ensures forall k :: 0 <= k < |SplitSlash(s)| ==> '/' !in SplitSlash(s)[k]
  {
    if |s| > 0 {
      SplitHasNone(s[1..]);
    }
  }

  /** What comes out are at most 24 good segments. */
  lemma CleanIsGood(raw: Option<string>, space: Space)
    requires Segments(raw, space).Clean?
    ensures |Segments(raw, space).value| <= 24 &&
      forall k :: 0 <= k < |Segments(raw, space).value| ==> Good(Segments(raw, space).value[k], space)
  {
    if raw.Some? {
      var text := Strip(Strip(raw.value, space), Slash);
      SplitHasNone(text);
      if text != "" && text != "." {
        KeptGood(SplitSlash(text), |SplitSlash(text)|, space);
      }
    }
  }

  lemma KeptAll(parts: seq<string>, k: nat, space: Space)
    requires k <= |parts| && forall j :: 0 <= j < |parts| ==> Good(parts[j], space)
    ensures Kept(parts, k, space) == Clean(parts[..k])
  {
    if k > 0 {
      KeptAll(parts, k - 1, space);
      assert Strip(parts[k - 1], space) == parts[k - 1];
      assert parts[..k] == parts[..k - 1] + [parts[k - 1]];
    }
  }

  // Joined good segments begin and end like segments.
  lemma {:induction false} JoinEnds(parts: seq<string>, space: Space)
    requires |parts| > 0 && Good(parts[0], space) && Good(parts[|parts| - 1], space) &&
      forall j :: 0 <= j < |parts| ==> Good(parts[j], space)
    ensures Join(parts) != "" && Join(parts)[0] == parts[0][0]
    ensures var last := parts[|parts| - 1]; Join(parts)[|Join(parts)| - 1] == last[|last| - 1]
    ensures |parts| > 1 ==> '/' in Join(parts)
  {
    if |parts| > 1 {
      JoinEnds(parts[1..], space);
      assert Join(parts)[|parts[0]|] == '/';
    }
  }

  lemma JoinedEnds(parts: seq<string>, space: Space)
    requires |parts| > 0 && forall j :: 0 <= j < |parts| ==> Good(parts[j], space)
    ensures Join(parts) != "" && ('/' in Join(parts) || Join(parts) != ".")
    ensures var text := Join(parts); !space(text[0]) && !space(text[|text| - 1])
    ensures var text := Join(parts); text[0] != '/' && text[|text| - 1] != '/'
  {
    hide Good;
    GoodEnds(parts[0], space);
    GoodEnds(parts[|parts| - 1], space);
    JoinEnds(parts, space);
    assert |parts| == 1 ==> Join(parts) == parts[0];
  }

  // Joined good segments need no stripping and are not the root.
  lemma JoinedIsText(parts: seq<string>, space: Space)
    requires |parts| > 0 && forall j :: 0 <= j < |parts| ==> Good(parts[j], space)
    ensures var text := Join(parts); Strip(Strip(text, space), Slash) == text && text != "" && text != "."
  {
    hide *;
    JoinedEnds(parts, space);
    SlashHere(Join(parts));
    StripNothing(Join(parts), space);
    StripNothing(Join(parts), Slash);
  }

  lemma StripNothing(s: string, drop: char -> bool)
    requires s != "" && !drop(s[0]) && !drop(s[|s| - 1])
    ensures Strip(s, drop) == s
  {}

  lemma SlashHere(s: string)
    ensures '/' in s ==> s != "."
    ensures forall c :: Slash(c) <==> c == '/'
  {}

  lemma GoodEnds(s: string, space: Space)
    requires Good(s, space)
    ensures |s| > 0 && s != "." && !space(s[0]) && !space(s[|s| - 1]) && s[0] != '/' && s[|s| - 1] != '/'
  {
    assert s[0] in s && s[|s| - 1] in s;
  }

  /** Cleaning a clean name changes nothing. */
  lemma CleanTwice(parts: seq<string>, space: Space)
    requires |parts| <= 24 && forall j :: 0 <= j < |parts| ==> Good(parts[j], space)
    ensures Segments(Some(Join(parts)), space) == Clean(parts)
  {
    if |parts| > 0 {
      JoinedIsText(parts, space);
      SplitJoin(parts);
      KeptAll(parts, |parts|, space);
      assert parts[..|parts|] == parts;
    }
  }

  // ---- the joined text and its segments ----

  // path.count("/")
  function Slashes(s: string): nat {
    if |s| == 0 then 0 else (if s[0] == '/' then 1 else 0) + Slashes(s[1..])
  }

  lemma {:induction false} SlashesSum(s: string, t: string)
    ensures Slashes(s + t) == Slashes(s) + Slashes(t) && ('/' !in s ==> Slashes(s) == 0)
  {
    if |s| == 0 {
      assert s + t == t;
    } else {
      assert (s + t)[1..] == s[1..] + t;
      SlashesSum(s[1..], t);
      assert s[0] in s;
    }
  }

  /** The number of slashes is one less than the number of segments; the root and a top-level folder both
      have none. */
  lemma {:induction false} DepthIsSlashes(parts: seq<string>)
    requires forall k :: 0 <= k < |parts| ==> '/' !in parts[k]
    ensures Slashes(Join(parts)) == if |parts| == 0 then 0 else |parts| - 1
  {
    if |parts| == 1 {
      SlashesSum(parts[0], "");
    } else if |parts| > 1 {
      DepthIsSlashes(parts[1..]);
      SlashesSum(parts[0] + "/", Join(parts[1..]));
      SlashesSum(parts[0], "/");
      assert Slashes("/") == 1 + Slashes("/"[1..]);
    }
  }

  /** folder.startswith(parent + "/") holds exactly for the folders below the parent. */
  lemma StartsWithIsBelow(parent: seq<string>, folder: seq<string>)
    requires |parent| > 0 && |folder| > 0
    requires (forall k :: 0 <= k < |parent| ==> '/' !in parent[k]) &&
      forall k :: 0 <= k < |folder| ==> '/' !in folder[k]
    ensures Join(parent) + "/" <= Join(folder) <==> parent < folder
  {
    hide Join;
    if parent < folder {
      BelowStarts(parent, folder[|parent|..], folder);
    } else if Join(parent) + "/" <= Join(folder) {
      SplitJoin(folder);
      StartsBelow(parent, Join(folder));
    }
  }

  lemma BelowStarts(parent: seq<string>, rest: seq<string>, folder: seq<string>)
    requires |parent| > 0 && |rest| > 0 && folder == parent + rest
    ensures Join(parent) + "/" <= Join(folder)
  {
    hide Join;
    JoinSum(parent, rest);
  }

  lemma StartsBelow(parent: seq<string>, path: string)
    requires |parent| > 0 && (forall k :: 0 <= k < |parent| ==> '/' !in parent[k]) && Join(parent) + "/" <= path
    ensures parent < SplitSlash(path)
  {
    hide Join, SplitSlash;
    var rest := path[|Join(parent)| + 1..];
    assert path == Join(parent) + "/" + rest;
    SplitPrefix(parent, rest);
  }

  lemma {:induction false} JoinSum(a: seq<string>, b: seq<string>)
    requires |a| > 0 && |b| > 0
    ensures Join(a + b) == Join(a) + "/" + Join(b)
  {
    if |a| == 1 {
      assert (a + b)[1..] == b;
    } else {
      JoinSum(a[1..], b);
      assert (a + b)[1..] == a[1..] + b;
    }
  }

  lemma {:induction false} SplitPrefix(parent: seq<string>, rest: string)
    requires |parent| > 0 && forall k :: 0 <= k < |parent| ==> '/' !in parent[k]
    ensures SplitSlash(Join(parent) + "/" + rest) == parent + SplitSlash(rest)
  {
    hide SplitSlash;
    var tail := if |parent| == 1 then rest else Join(parent[1..]) + "/" + rest;
    SplitAfter(parent[0], tail);
    assert parent == [parent[0]] + parent[1..];
    assert Join(parent) + "/" + rest == parent[0] + "/" + tail;
    if |parent| > 1 {
      SplitPrefix(parent[1..], rest);
    }
  }
}
