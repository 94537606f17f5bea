/** Local file URLs on the pasteboard (input-capture/src/clipboard_mac_file.rs):
    percent decoding (section 2.1 of RFC 3986) and splitting into components,
    against the encodings a local file URL (section 2 of RFC 8089) may use. */
module FileUrl {
  import opened Wrappers

  type Byte = b: nat | b < 256
  type Bytes = seq<Byte>

  const SLASH: Byte := 47
  const PERCENT: Byte := 37
  const QUESTION: Byte := 63
  const HASH: Byte := 35
  const DOT: Byte := 46
  const SCHEME: Bytes := [102, 105, 108, 101, 58, 47, 47]
  const LOCALHOST: Bytes := [108, 111, 99, 97, 108, 104, 111, 115, 116]

  // ------------------------------------------------------- percent decoding

  function Digit(b: Byte): (d: Option<nat>)
    ensures d.Some? ==> d.value < 16
  {
    if 48 <= b <= 57 then Some(b - 48)
    else if 65 <= b <= 70 then Some(b - 55)
    else if 97 <= b <= 102 then Some(b - 87)
    else None
  }

  /** The byte that an escape at the front of `s` stands for. */
  function Escape(s: Bytes): Option<Byte> {
    if |s| < 3 || Digit(s[1]).None? || Digit(s[2]).None? then None
    else
      var c := Digit(s[1]).value * 16 + Digit(s[2]).value;
      if c == SLASH then None else Some(c)
  }

  const UPPER: Bytes := [48, 49, 50, 51, 52, 53, 54, 55, 56, 57, 65, 66, 67, 68, 69, 70]
  const LOWER: Bytes := [48, 49, 50, 51, 52, 53, 54, 55, 56, 57, 97, 98, 99, 100, 101, 102]

  /** A hexadecimal digit, in either case. */
  predicate IsHex(b: Byte, d: nat) {
    d < 16 && (b == UPPER[d] || b == LOWER[d])
  }

  lemma {:induction false} DigitIsHex(b: Byte, d: nat)
    ensures Digit(b) == Some(d) <==> IsHex(b, d)
  {
    assert |UPPER| == 16 && |LOWER| == 16;
    if Digit(b).Some? {
      var v := Digit(b).value;
      assert b == UPPER[v] || b == LOWER[v];
    }
  }

  predicate HexPair(first: Byte, second: Byte, high: nat, low: nat) {
    IsHex(first, high) && IsHex(second, low)
  }

  /** An escape is a mark and two hexadecimal digits, of anything but a separator. */
  lemma {:induction false} EscapesExactly(s: Bytes, c: Byte)
    ensures Escape(s) == Some(c) <==>
      |s| >= 3 && c != SLASH && exists high: nat, low: nat :: HexPair(s[1], s[2], high, low) && c == high * 16 + low
  {
    if Escape(s) == Some(c) {
      DigitIsHex(s[1], Digit(s[1]).value);
      DigitIsHex(s[2], Digit(s[2]).value);
      assert HexPair(s[1], s[2], Digit(s[1]).value, Digit(s[2]).value);
    }
    if |s| >= 3 {
      if high: nat, low: nat :| HexPair(s[1], s[2], high, low) && c == high * 16 + low {
        DigitIsHex(s[1], high);
        DigitIsHex(s[2], low);
      }
    }
  }

  function Before(head: Bytes, tail: Option<Bytes>): Option<Bytes> {
    if tail.Some? then Some(head + tail.value) else None
  }

  function Decode(s: Bytes): Option<Bytes> {
    if s == [] then Some([])
    else if s[0] == PERCENT then
      (match Escape(s)
       case None => None
       case Some(c) => Before([c], Decode(s[3..])))
    else Before([s[0]], Decode(s[1..]))
  }

  /** `s` writes `raw`: every byte literally or escaped, separators literally;
      percent, query and fragment marks only escaped. */
  predicate Writes(s: Bytes, raw: Bytes)
    decreases |raw|
  {
    if raw == [] then s == []
    else
      s != [] &&
      if s[0] == PERCENT then Escape(s) == Some(raw[0]) && Writes(s[3..], raw[1..])
      else s[0] == raw[0] && s[0] != QUESTION && s[0] != HASH && Writes(s[1..], raw[1..])
  }

  predicate Plain(s: Bytes) {
    QUESTION !in s && HASH !in s
  }

  /** Decoding inverts every way of writing, and nothing else decodes. */
  lemma {:induction false} DecodeInvertsWrites(s: Bytes, raw: Bytes)
    ensures Plain(s) && Decode(s) == Some(raw) ==> Writes(s, raw)
    ensures Writes(s, raw) ==> Decode(s) == Some(raw)
    decreases |s|
  {
    if s != [] && raw != [] {
      if s[0] == PERCENT {
        if Escape(s).Some? {
          DecodeInvertsWrites(s[3..], raw[1..]);
          assert raw == [raw[0]] + raw[1..];
        }
      } else {
        DecodeInvertsWrites(s[1..], raw[1..]);
        assert raw == [raw[0]] + raw[1..];
      }
    }
  }

  /** What writes anything holds no bare query or fragment mark. */
  lemma {:induction false} WritesIsPlain(s: Bytes, raw: Bytes)
    requires Writes(s, raw)
    ensures Plain(s)
    decreases |s|
  {
    if raw != [] {
      if s[0] == PERCENT {
        WritesIsPlain(s[3..], raw[1..]);
        assert s == s[..3] + s[3..] && s[..3] == [s[0], s[1], s[2]];
      } else {
        WritesIsPlain(s[1..], raw[1..]);
        assert s == [s[0]] + s[1..];
      }
    }
  }

  // ------------------------------------------------------------- components

  /** The pieces between separators, one more than there are separators. */
  function Split(s: Bytes): (parts: seq<Bytes>)
    ensures parts != []
  {
    if s == [] then [[]]
    else if s[0] == SLASH then [[]] + Split(s[1..])
    else
      var rest := Split(s[1..]);
      [[s[0]] + rest[0]] + rest[1..]
  }

  function Join(parts: seq<Bytes>): Bytes
    requires parts != []
  {
    if |parts| == 1 then parts[0] else parts[0] + [SLASH] + Join(parts[1..])
  }

  predicate ValidComponent(part: Bytes) {
    part != [] && part != [DOT] && part != [DOT, DOT] && 0 !in part && SLASH !in part
  }

  predicate ValidComponents(parts: seq<Bytes>) {
    parts != [] && forall k :: 0 <= k < |parts| ==> ValidComponent(parts[k])
  }

  /** Walking a path: empty and single-dot parts stay, double dots go back up. */
  function Walk(parts: seq<Bytes>): seq<Bytes>
    decreases |parts|
  {
    if parts == [] then []
    else
      var so, part := Walk(parts[..|parts| - 1]), parts[|parts| - 1];
      if part == [] || part == [46] then so
      else if part == [46, 46] then (if so == [] then [] else so[..|so| - 1])
      else so + [part]
  }

  lemma {:induction false} WalkIsNoLonger(parts: seq<Bytes>)
    ensures |Walk(parts)| <= |parts|
    decreases |parts|
  {
    if parts != [] {
      WalkIsNoLonger(parts[..|parts| - 1]);
    }
  }

  lemma {:induction false} WalkKeepsPlain(parts: seq<Bytes>)
    ensures Walk(parts) == parts <==>
      forall k :: 0 <= k < |parts| ==> parts[k] != [] && parts[k] != [46] && parts[k] != [46, 46]
    decreases |parts|
  {
    if parts != [] {
      var front, last := parts[..|parts| - 1], parts[|parts| - 1];
      WalkKeepsPlain(front);
      WalkIsNoLonger(front);
      assert parts == front + [last];
      if Walk(parts) == parts {
        assert Walk(front) + [last] == front + [last];
        assert (Walk(front) + [last])[..|Walk(front)|] == (front + [last])[..|front|];
      }
    }
  }

  /** Accepted components are exactly the lists that a walk leaves as they are, so
      that no part of the way is skipped or goes back up, free of separators and
      zero bytes. */
  lemma {:induction false} ValidIsWalked(parts: seq<Bytes>)
    ensures ValidComponents(parts) <==>
      parts != [] && Walk(parts) == parts && forall k :: 0 <= k < |parts| ==> 0 !in parts[k] && 47 !in parts[k]
  {
    WalkKeepsPlain(parts);
  }

  lemma {:induction false} SplitHasNoSeparator(s: Bytes)
    ensures forall k :: 0 <= k < |Split(s)| ==> SLASH !in Split(s)[k]
  {
    if s != [] {
      SplitHasNoSeparator(s[1..]);
    }
  }

  lemma {:induction false} JoinInvertsSplit(s: Bytes)
    ensures Join(Split(s)) == s
  {
    if s != [] {
      var rest := Split(s[1..]);
      JoinInvertsSplit(s[1..]);
      assert s == [s[0]] + s[1..];
      if s[0] == SLASH {
        assert Split(s)[1..] == rest;
      } else if |rest| > 1 {
        assert Split(s)[1..] == rest[1..];
      }
    }
  }

  lemma {:induction false} SplitAtSeparator(head: Bytes, tail: Bytes)
    requires SLASH !in head
    ensures Split(head + [SLASH] + tail) == [head] + Split(tail)
    decreases |head|
  {
    if head == [] {
      assert head + [SLASH] + tail == [SLASH] + tail;
      assert ([SLASH] + tail)[1..] == tail;
    } else {
      SplitAtSeparator(head[1..], tail);
      assert (head + [SLASH] + tail)[1..] == head[1..] + [SLASH] + tail;
      assert head == [head[0]] + head[1..];
    }
  }

  lemma {:induction false} SplitWithoutSeparator(s: Bytes)
    requires SLASH !in s
    ensures Split(s) == [s]
  {
    if s != [] {
      SplitWithoutSeparator(s[1..]);
      assert s == [s[0]] + s[1..];
    }
  }

  lemma {:induction false} SplitInvertsJoin(parts: seq<Bytes>)
    requires parts != [] && forall k :: 0 <= k < |parts| ==> SLASH !in parts[k]
    ensures Split(Join(parts)) == parts
  {
    if |parts| == 1 {
      SplitWithoutSeparator(parts[0]);
    } else {
      SplitInvertsJoin(parts[1..]);
      SplitAtSeparator(parts[0], Join(parts[1..]));
    }
  }

  // ------------------------------------------- components and their writing

  /** Each component written on its own, without a separator. */
  predicate WritesEach(encs: seq<Bytes>, parts: seq<Bytes>) {
    |encs| == |parts| && forall k :: 0 <= k < |encs| ==> SLASH !in encs[k] && Writes(encs[k], parts[k])
  }

  lemma {:induction false} WritesInTwo(s: Bytes, t: Bytes, raw: Bytes, more: Bytes)
    requires Writes(s, raw) && Writes(t, more)
    ensures Writes(s + t, raw + more)
    decreases |s|
  {
    if raw == [] {
      assert s + t == t && raw + more == more;
    } else {
      assert (raw + more)[1..] == raw[1..] + more;
      if s[0] == PERCENT {
        WritesInTwo(s[3..], t, raw[1..], more);
        assert (s + t)[3..] == s[3..] + t;
      } else {
        WritesInTwo(s[1..], t, raw[1..], more);
        assert (s + t)[1..] == s[1..] + t;
      }
    }
  }

  lemma {:induction false} WritesJoin(encs: seq<Bytes>, parts: seq<Bytes>)
    requires encs != [] && WritesEach(encs, parts)
    ensures Writes(Join(encs), Join(parts))
  {
    if |encs| > 1 {
      WritesJoin(encs[1..], parts[1..]);
      assert [SLASH][1..] == [];
      WritesInTwo(encs[0], [SLASH], parts[0], [SLASH]);
      WritesInTwo(encs[0] + [SLASH], Join(encs[1..]), parts[0] + [SLASH], Join(parts[1..]));
    }
  }

  /** One more written byte in front of the first piece. */
  lemma {:induction false} WritesHead(head: Bytes, b: Byte, encs: seq<Bytes>, parts: seq<Bytes>)
    requires encs != [] && WritesEach(encs, parts) && Writes(head, [b]) && SLASH !in head
    ensures WritesEach([head + encs[0]] + encs[1..], [[b] + parts[0]] + parts[1..])
  {
    WritesInTwo(head, encs[0], [b], parts[0]);
  }

  /** Separators are never escaped, so pieces correspond one to one. */
  lemma {:induction false} WritesSplit(s: Bytes, raw: Bytes)
    requires Writes(s, raw)
    ensures WritesEach(Split(s), Split(raw))
    decreases |s|
  {
    SplitHasNoSeparator(s);
    if raw != [] {
      if s[0] == PERCENT {
        WritesSplit(s[3..], raw[1..]);
        EscapeSplits(s);
        WritesHead(s[..3], raw[0], Split(s[3..]), Split(raw[1..]));
      } else {
        WritesSplit(s[1..], raw[1..]);
        if s[0] != SLASH {
          assert [s[0]] == s[..1];
          WritesHead(s[..1], raw[0], Split(s[1..]), Split(raw[1..]));
        }
      }
    }
  }

  lemma {:induction false} EscapeSplits(s: Bytes)
    requires s != [] && s[0] == PERCENT && Escape(s).Some?
    ensures Split(s) == [s[..3] + Split(s[3..])[0]] + Split(s[3..])[1..]
  {
    assert s[1..][1..] == s[2..] && s[2..][1..] == s[3..];
    assert s[1] != SLASH && s[2] != SLASH;
    var rest := Split(s[3..]);
    assert Split(s[2..]) == [[s[2]] + rest[0]] + rest[1..];
    assert Split(s[2..])[1..] == rest[1..];
    assert Split(s[1..]) == [[s[1]] + Split(s[2..])[0]] + rest[1..];
    assert Split(s[1..])[1..] == rest[1..];
    assert [s[0]] + ([s[1]] + ([s[2]] + rest[0])) == s[..3] + rest[0];
  }

  // ------------------------------------------------------------------- URLs

  function Lower(b: Byte): Byte {
    if 65 <= b <= 90 then b + 32 else b
  }

  /** The empty authority, or localhost in any mixture of cases. */
  predicate Local(authority: Bytes) {
    authority == []
    || (|authority| == |LOCALHOST| && forall k :: 0 <= k < |LOCALHOST| ==> Lower(authority[k]) == LOCALHOST[k])
  }

  function Find(s: Bytes, b: Byte): (i: nat)
    ensures i <= |s| && b !in s[..i]
    ensures i < |s| ==> s[i] == b
  {
    if s == [] || s[0] == b then 0
    else
      assert s[..1 + Find(s[1..], b)] == [s[0]] + s[1..][..Find(s[1..], b)];
      1 + Find(s[1..], b)
  }

  function PathOf(url: Bytes): Option<Bytes> {
    if !(SCHEME <= url) then None
    else
      var rest := url[|SCHEME|..];
      var slash := Find(rest, SLASH);
      if slash == |rest| || !Local(rest[..slash]) then None else Some(rest[slash + 1..])
  }

  function Checked(parts: seq<Bytes>): Option<seq<Bytes>> {
    if forall k :: 0 <= k < |parts| ==> ValidComponent(parts[k]) then Some(parts) else None
  }

  function Components(url: Bytes): Option<seq<Bytes>> {
    match PathOf(url)
    case None => None
    case Some(path) =>
      if !Plain(path) then None
      else
        match Decode(path)
        case None => None
        case Some(decoded) => Checked(Split(decoded))
  }

  predicate IsUrl(url: Bytes, authority: Bytes, path: Bytes) {
    url == SCHEME + authority + [SLASH] + path && Local(authority)
  }

  const UPPER_LOCALHOST: Bytes := [76, 79, 67, 65, 76, 72, 79, 83, 84]

  /** No authority, or localhost in any mixture of cases. */
  lemma {:induction false} LocalExactly(authority: Bytes)
    ensures Local(authority) <==>
      authority == []
      || (|authority| == 9
          && forall k :: 0 <= k < 9 ==> authority[k] == LOCALHOST[k] || authority[k] == UPPER_LOCALHOST[k])
  {
    assert |LOCALHOST| == 9;
    assert forall k :: 0 <= k < 9 ==> UPPER_LOCALHOST[k] + 32 == LOCALHOST[k];
  }

  /** A query or a fragment is refused wherever it stands in the path. */
  lemma {:induction false} QueryIsRefused(url: Bytes)
    requires PathOf(url).Some? && (63 in PathOf(url).value || 35 in PathOf(url).value)
    ensures Components(url).None?
  {
  }

  /** A local file URL for these components, however they are escaped. */
  ghost predicate IsUrlOf(url: Bytes, parts: seq<Bytes>) {
    exists authority, encs :: encs != [] && WritesEach(encs, parts) && IsUrl(url, authority, Join(encs))
  }

  lemma {:induction false} LocalHasNoSeparator(authority: Bytes)
    requires Local(authority)
    ensures SLASH !in authority
  {
    forall k | 0 <= k < |authority| ensures authority[k] != SLASH {
      assert Lower(authority[k]) == LOCALHOST[k];
    }
  }

  lemma {:induction false} FindIsFirst(head: Bytes, b: Byte, tail: Bytes)
    requires b !in head
    ensures Find(head + [b] + tail, b) == |head|
  {
    if head == [] {
      assert head + [b] + tail == [b] + tail;
    } else {
      FindIsFirst(head[1..], b, tail);
      assert (head + [b] + tail)[1..] == head[1..] + [b] + tail;
    }
  }

  lemma {:induction false} PathOfIsPath(url: Bytes, authority: Bytes, path: Bytes)
    requires IsUrl(url, authority, path)
    ensures PathOf(url) == Some(path)
  {
    LocalHasNoSeparator(authority);
    var rest := url[|SCHEME|..];
    assert rest == authority + [SLASH] + path;
    FindIsFirst(authority, SLASH, path);
    assert rest[..|authority|] == authority && rest[|authority| + 1..] == path;
  }

  lemma {:induction false} PathOfGivesUrl(url: Bytes)
    requires PathOf(url).Some?
    ensures exists authority :: IsUrl(url, authority, PathOf(url).value)
  {
    var rest := url[|SCHEME|..];
    var slash := Find(rest, SLASH);
    assert rest == rest[..slash] + [SLASH] + rest[slash + 1..];
    assert url == SCHEME + rest;
    assert url == SCHEME + rest[..slash] + [SLASH] + rest[slash + 1..];
    assert IsUrl(url, rest[..slash], PathOf(url).value);
  }

  lemma {:induction false} EveryWritingParses(url: Bytes, parts: seq<Bytes>)
    requires ValidComponents(parts) && IsUrlOf(url, parts)
    ensures Components(url) == Some(parts)
  {
    var authority, encs :| encs != [] && WritesEach(encs, parts) && IsUrl(url, authority, Join(encs));
    PathOfIsPath(url, authority, Join(encs));
    WritesJoin(encs, parts);
    WritesIsPlain(Join(encs), Join(parts));
    DecodeInvertsWrites(Join(encs), Join(parts));
    SplitInvertsJoin(parts);
  }

  lemma {:induction false} OnlyWritingsParse(url: Bytes, parts: seq<Bytes>)
    requires Components(url) == Some(parts)
    ensures ValidComponents(parts) && IsUrlOf(url, parts)
  {
    var path := PathOf(url).value;
    var decoded := Decode(path).value;
    DecodeInvertsWrites(path, decoded);
    WritesSplit(path, decoded);
    JoinInvertsSplit(path);
    PathOfGivesUrl(url);
    var authority :| IsUrl(url, authority, path);
    assert Split(path) != [] && WritesEach(Split(path), parts) && IsUrl(url, authority, Join(Split(path)));
  }

  /** The parser accepts exactly the local file URLs of valid components, and
      reads back those components, whatever was escaped and how. */
  lemma {:induction false} ParsesExactlyFileUrls(url: Bytes, parts: seq<Bytes>)
    ensures Components(url) == Some(parts) <==> ValidComponents(parts) && IsUrlOf(url, parts)
  {
    if Components(url) == Some(parts) {
      OnlyWritingsParse(url, parts);
    } else if ValidComponents(parts) && IsUrlOf(url, parts) {
      EveryWritingParses(url, parts);
    }
  }

  // ------------------------------------------------------------- the parser

  lemma {:induction false} BeforeNothing(tail: Option<Bytes>)
    ensures Before([], tail) == tail
  {
    if tail.Some? {
      assert [] + tail.value == tail.value;
    }
  }

  lemma {:induction false} BeforeTwice(first: Bytes, second: Bytes, tail: Option<Bytes>)
    ensures Before(first, Before(second, tail)) == Before(first + second, tail)
  {
    if tail.Some? {
      assert first + (second + tail.value) == first + second + tail.value;
    }
  }

  method PercentDecode(path: Bytes) returns (r: Option<Bytes>)
    ensures r == Decode(path)
  {
    var decoded: Bytes, i := [], 0;
    assert path[0..] == path;
    BeforeNothing(Decode(path));
    while i < |path|
      invariant i <= |path|
      invariant Decode(path) == Before(decoded, Decode(path[i..]))
    {
      ghost var s := path[i..];
      if path[i] == PERCENT {
        if i + 2 >= |path| {
          return None;
        }
        var a, b := Digit(path[i + 1]), Digit(path[i + 2]);
        if a.None? || b.None? {
          return None;
        }
        var c := a.value * 16 + b.value;
        if c == SLASH {
          return None;
        }
        BeforeTwice(decoded, [c], Decode(s[3..]));
        decoded := decoded + [c];
        i := i + 3;
        assert s[3..] == path[i..];
      } else {
        BeforeTwice(decoded, [path[i]], Decode(s[1..]));
        decoded := decoded + [path[i]];
        i := i + 1;
        assert s[1..] == path[i..];
      }
    }
    assert decoded + [] == decoded;
    return Some(decoded);
  }

  function Glue(current: Bytes, parts: seq<Bytes>): seq<Bytes>
    requires parts != []
  {
    [current + parts[0]] + parts[1..]
  }

  lemma {:induction false} GlueNothing(parts: seq<Bytes>)
    requires parts != []
    ensures Glue([], parts) == parts
  {
    assert [] + parts[0] == parts[0];
  }

  lemma {:induction false} SplitStep(current: Bytes, s: Bytes)
    requires s != []
    ensures Glue(current, Split(s)) ==
      if s[0] == SLASH then [current] + Split(s[1..]) else Glue(current + [s[0]], Split(s[1..]))
  {
    var rest := Split(s[1..]);
    if s[0] == SLASH {
      assert Split(s)[0] == [] && Split(s)[1..] == rest;
      assert current + [] == current;
    } else {
      assert Split(s)[0] == [s[0]] + rest[0] && Split(s)[1..] == rest[1..];
      assert current + ([s[0]] + rest[0]) == current + [s[0]] + rest[0];
    }
  }

  method SplitParts(s: Bytes) returns (parts: seq<Bytes>)
    ensures parts == Split(s)
  {
    var current: Bytes := [];
    parts := [];
    assert s[0..] == s;
    GlueNothing(Split(s));
    for i := 0 to |s|
      invariant Split(s) == parts + Glue(current, Split(s[i..]))
    {
      SplitStep(current, s[i..]);
      assert s[i..][1..] == s[i + 1..];
      if s[i] == SLASH {
        GlueNothing(Split(s[i + 1..]));
        parts, current := parts + [current], [];
      } else {
        current := current + [s[i]];
      }
    }
    assert s[|s|..] == [] && current + [] == current;
    parts := parts + [current];
  }

  method PathComponents(url: Bytes) returns (r: Option<seq<Bytes>>)
    ensures r == Components(url)
    ensures r.Some? ==> ValidComponents(r.value) && IsUrlOf(url, r.value)
    ensures r.None? ==> !exists parts :: ValidComponents(parts) && IsUrlOf(url, parts)
  {
    ghost var spec := Components(url);
    forall parts ensures spec == Some(parts) <==> ValidComponents(parts) && IsUrlOf(url, parts) {
      ParsesExactlyFileUrls(url, parts);
    }
    var path := PathOf(url);
    if path.None? || QUESTION in path.value || HASH in path.value {
      return None;
    }
    var decoded := PercentDecode(path.value);
    if decoded.None? {
      return None;
    }
    var parts := SplitParts(decoded.value);
    for k := 0 to |parts|
      invariant forall i :: 0 <= i < k ==> ValidComponent(parts[i])
    {
      if parts[k] == [] || parts[k] == [DOT] || parts[k] == [DOT, DOT] || 0 in parts[k] {
        return None;
      }
      SplitHasNoSeparator(decoded.value);
    }
    return Some(parts);
  }
}
