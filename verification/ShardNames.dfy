/** Names of weight shards, `model-00001-of-00004.safetensors`, as the Rust
    agent and the Python worker each take them apart. Names are ASCII. */
module ShardNames {
  import opened Base
  import opened Numerals

  function Lower(s: string): string
  {
    seq(|s|, i requires 0 <= i < |s| => AsciiLower(s[i]))
  }

  predicate MatchAt(s: string, pat: string, i: nat) { i + |pat| <= |s| && s[i..i + |pat|] == pat }

  /** `rfind`, and where `rpartition` cuts: the last match starting below `n`. */
  function LastBelow(s: string, pat: string, n: nat): (r: Option<nat>)
    ensures r.Some? ==> r.value < n && MatchAt(s, pat, r.value)
    ensures forall i :: (if r.Some? then r.value else -1) < i < n ==> !MatchAt(s, pat, i)
  {
    if n == 0 then None
    else if MatchAt(s, pat, n - 1) then Some(n - 1)
    else LastBelow(s, pat, n - 1)
  }

  function RFind(s: string, pat: string): Option<nat> { LastBelow(s, pat, |s| + 1) }

  datatype Shard = Shard(prefix: string, idx: nat, n: nat)

  /** The three texts of `head-idx-of-total`. */
  datatype Parts = Parts(head: string, idx: string, total: string)

  function SplitStem(stem: string): Option<Parts>
  {
    var of := RFind(stem, "-of-");
    if of.None? then None
    else
      var rest := stem[..of.value];
      var dash := RFind(rest, "-");
      if dash.None? then None else Some(Parts(rest[..dash.value], rest[dash.value + 1..], stem[of.value + 4..]))
  }

  /** `strip_suffix(".safetensors")`, else `".bin"`, else `".pt"`. */
  function Stem(name: string, spelling: string): Option<string>
    requires |spelling| == |name|
  {
    if EndsWith(spelling, ".safetensors") then Some(name[..|name| - 12])
    else if EndsWith(spelling, ".bin") then Some(name[..|name| - 4])
    else if EndsWith(spelling, ".pt") then Some(name[..|name| - 3])
    else None
  }

  function ParseShardName(name: string): Option<Shard>
  {
    var stem := Stem(name, name);
    var parts := if stem.None? then None else SplitStem(stem.value);
    if parts.None? then None else RustShard(parts.value)
  }

  function RustShard(p: Parts): Option<Shard>
  {
    var n, idx := ParseU32(p.total), ParseU32(p.idx);
    if n.None? || idx.None? || idx.value == 0 || n.value == 0 || idx.value > n.value then None
    else Some(Shard(p.head, idx.value, n.value))
  }

  // ---- Python's int() ----

  predicate IsSpace(c: char) { c == ' ' || '\t' <= c <= '\r' || '\U{1c}' <= c <= '\U{1f}' }

  function StripLeft(s: string): (r: string)
    ensures forall c :: c in s && !IsSpace(c) ==> c in r
    ensures |r| <= |s| && (s != [] && !IsSpace(s[0]) ==> r == s)
  {
    if s == [] || !IsSpace(s[0]) then s
    else
      assert s == [s[0]] + s[1..];
      StripLeft(s[1..])
  }

  function StripRight(s: string): (r: string)
    ensures forall c :: c in s && !IsSpace(c) ==> c in r
    ensures |r| <= |s| && (s != [] && !IsSpace(s[|s| - 1]) ==> r == s)
  {
    if s == [] || !IsSpace(s[|s| - 1]) then s
    else
      assert s == s[..|s| - 1] + [s[|s| - 1]];
      StripRight(s[..|s| - 1])
  }

  function Strip(s: string): string { StripRight(StripLeft(s)) }

  function WithoutUnderscores(s: string): string
  {
    if s == [] then [] else (if s[0] == '_' then [] else [s[0]]) + WithoutUnderscores(s[1..])
  }

  lemma {:induction false} OnlyDigitsLeft(s: string)
    requires forall c :: c in s ==> IsDigit(c) || c == '_'
    ensures forall c :: c in WithoutUnderscores(s) ==> IsDigit(c)
  {
    if s != [] {
      assert s[0] in s && forall c :: c in s[1..] ==> c in s;
      OnlyDigitsLeft(s[1..]);
    }
  }

  /** Digits, with single underscores between digits. */
  predicate PyDigits(s: string)
  {
    && s != "" && s[0] != '_' && s[|s| - 1] != '_' && (forall c :: c in s ==> IsDigit(c) || c == '_')
    && (forall i :: 0 < i < |s| ==> !(s[i - 1] == '_' && s[i] == '_'))
  }

  function PyUnsigned(body: string): Option<nat>
  {
    if !PyDigits(body) then None
    else
      OnlyDigitsLeft(body);
      Some(Digits(WithoutUnderscores(body)))
  }

  function PySigned(t: string): Option<int>
  {
    if t != "" && t[0] in "+-" then
      var n := PyUnsigned(t[1..]);
      if n.Some? && t[0] == '-' then Some(0 - n.value) else AsInt(n)
    else AsInt(PyUnsigned(t))
  }

  function PyInt(s: string): Option<int> { PySigned(Strip(s)) }

  /** Space, tab to carriage return, and the four separators below the space. */
  lemma SpacesAre(c: char)
    ensures IsSpace(c) <==> c as int in {9, 10, 11, 12, 13, 28, 29, 30, 31, 32}
  {
  }

  /** A minus sign negates the digits behind it, a plus sign does nothing. */
  lemma SignMeans(t: string, n: nat)
    requires t != "" && PyUnsigned(t[1..]) == Some(n)
    ensures t[0] == '+' ==> PySigned(t) == Some(n)
    ensures t[0] == '-' ==> PySigned(t).Some? && PySigned(t).value + n == 0
  {
  }

  /** Plain digits count as written. */
  lemma PlainDigits(d: string)
    requires d != "" && forall c :: c in d ==> IsDigit(c)
    ensures PyUnsigned(d) == Some(Digits(d))
  {
    NothingDropped(d);
    assert d[0] in d && d[|d| - 1] in d;
    assert forall i :: 0 <= i < |d| ==> d[i] in d;
  }

  /** Underscores stand only between two digits. */
  lemma PyUnsignedRefuses(a: string, b: string)
    ensures PyUnsigned(['_'] + a) == None && PyUnsigned(a + ['_']) == None && PyUnsigned(a + ['_', '_'] + b) == None
  {
    var twice := a + ['_', '_'] + b;
    assert (['_'] + a)[0] == '_' && (a + ['_'])[|a|] == '_';
    assert twice[|a|] == '_' && twice[|a| + 1 - 1] == '_' && twice[|a| + 1] == '_';
  }

  function AsInt(n: Option<nat>): Option<int> { if n.Some? then Some(n.value) else None }

  /** What `_shard_group_complete` takes from one file name. A stem without the
      second dash leaves the head empty, so it is skipped like one without parts. */
  function PyShardName(name: string): Option<Shard>
  {
    var stem := Stem(name, Lower(name));
    var parts := if stem.None? then None else SplitStem(stem.value);
    if parts.None? then None else PyShard(parts.value)
  }

  function PyShard(p: Parts): Option<Shard>
  {
    var idx, total := PyInt(p.idx), PyInt(p.total);
    if idx.None? || total.None? || idx.value < 1 || total.value < 1 || idx.value > total.value || p.head == "" then None
    else Some(Shard(p.head, idx.value, total.value))
  }

  // ---- regular names ----

  /** Only digits, after at most a plus sign, below 2^32. */
  predicate PlainU32(t: string)
  {
    var body := if t != "" && t[0] == '+' then t[1..] else t;
    body != "" && (forall c :: c in body ==> IsDigit(c)) && Digits(body) <= U32_MAX
  }

  /** A text Python takes for a number is spelled plainly. */
  predicate RegularNumber(t: string) { PyInt(t).None? || PlainU32(t) }

  /** Index and total as Python reads them make a shard. */
  predicate PyNumbered(p: Parts)
  {
    PyInt(p.idx).Some? && PyInt(p.total).Some? && 1 <= PyInt(p.idx).value <= PyInt(p.total).value
  }

  /** Numbered parts have a prefix and plain numbers, or neither. */
  predicate RegularParts(p: Parts)
  {
    PyNumbered(p) ==> (p.head != "" <==> PlainU32(p.idx) && PlainU32(p.total))
  }

  predicate LowerExtension(name: string) { Stem(name, name).Some? }

  /** A name with a weight extension in any case whose parts are numbered has a
      prefix exactly when its numbers are plain and its extension lower-case. */
  predicate RegularShard(name: string)
  {
    var stem := Stem(name, Lower(name));
    stem.Some? && SplitStem(stem.value).Some? && PyNumbered(SplitStem(stem.value).value) ==>
      var p := SplitStem(stem.value).value;
      (p.head != "" <==> PlainU32(p.idx) && PlainU32(p.total) && LowerExtension(name))
  }

  lemma DigitsReadByRust(t: string)
    requires t != "" && forall c :: c in t ==> IsDigit(c)
    ensures ParseU32(t) == if Digits(t) <= U32_MAX then Some(Digits(t)) else None
  {
    assert t[0] in t;
  }

  lemma NothingToStrip(t: string)
    requires t != "" && forall c :: c in t ==> IsDigit(c)
    ensures Strip(t) == t
  {
    assert t[0] in t && t[|t| - 1] in t;
  }

  lemma DigitsArePyDigits(t: string)
    requires t != "" && forall c :: c in t ==> IsDigit(c)
    ensures PyDigits(t) && '_' !in t && t[0] !in "+-"
  {
    assert t[0] in t && t[|t| - 1] in t;
    assert forall i :: 0 <= i < |t| ==> t[i] in t;
  }

  lemma DigitsReadByPython(t: string)
    requires t != "" && forall c :: c in t ==> IsDigit(c)
    ensures PySigned(t) == Some(Digits(t))
  {
    DigitsArePyDigits(t);
    PlainUnsigned(t);
  }

  lemma DigitsReadAlike(t: string)
    requires t != "" && forall c :: c in t ==> IsDigit(c)
    ensures ParseU32(t) == (if Digits(t) <= U32_MAX then Some(Digits(t)) else None) && PyInt(t) == Some(Digits(t))
  {
    DigitsReadByRust(t);
    NothingToStrip(t);
    DigitsReadByPython(t);
  }

  lemma RustReadsPlain(t: string)
    ensures ParseU32(t).Some? <==> PlainU32(t)
  {
  }

  lemma StripKeeps(t: string)
    requires t != "" && !IsSpace(t[0]) && !IsSpace(t[|t| - 1])
    ensures Strip(t) == t
  {
  }

  lemma RustRejects(t: string, k: nat)
    requires k < |t| && t[0] != '+' && !IsDigit(t[k])
    ensures ParseU32(t) == None
  {
    assert t[k] in t;
  }

  lemma SignedDigits(t: string, body: string)
    requires t != "" && t[0] == '+' && t[1..] == body && body != "" && forall c :: c in body ==> IsDigit(c)
    ensures PySigned(t) == Some(Digits(body))
  {
    DigitsArePyDigits(body);
    PlainUnsigned(body);
  }

  lemma PlainUnsigned(body: string)
    requires PyDigits(body) && '_' !in body
    ensures PyUnsigned(body) == Some(Digits(body))
  {
    NothingDropped(body);
  }

  lemma PlusReadByPython(t: string)
    requires t != "" && t[0] == '+' && PlainU32(t)
    ensures PyInt(t) == Some(Digits(t[1..]))
  {
    var body := t[1..];
    assert t[|t| - 1] == body[|body| - 1] && body[|body| - 1] in body;
    assert forall c :: c in body ==> IsDigit(c);
    assert IsDigit(t[|t| - 1]);
    StripKeeps(t);
    SignedDigits(t, body);
  }

  lemma PlainReadAlike(t: string)
    requires PlainU32(t)
    ensures ParseU32(t).Some? && PyInt(t) == Some(ParseU32(t).value)
  {
    if t[0] == '+' {
      PlusReadByPython(t);
    } else {
      DigitsReadAlike(t);
    }
  }

  /** Both programs read the same number, or none, exactly out of regular text. */
  lemma NumbersAgreeIff(t: string)
    ensures AsInt(ParseU32(t)) == PyInt(t) <==> RegularNumber(t)
  {
    RustReadsPlain(t);
    if PlainU32(t) { PlainReadAlike(t); }
  }

  lemma PartsAgreeIff(p: Parts)
    ensures RustShard(p) == PyShard(p) <==> RegularParts(p)
    ensures PyShard(p).Some? <==> PyNumbered(p) && p.head != ""
  {
    RustReadsPlain(p.idx);
    RustReadsPlain(p.total);
    if PlainU32(p.idx) { PlainReadAlike(p.idx); }
    if PlainU32(p.total) { PlainReadAlike(p.total); }
  }

  lemma LowerKeepsExtension(name: string, ext: string)
    requires ext in [".safetensors", ".bin", ".pt"] && EndsWith(name, ext)
    ensures EndsWith(Lower(name), ext)
  {
    var k := |name| - |ext|;
    assert name[k..] == ext;
    forall i | 0 <= i < |ext| ensures Lower(name)[k + i] == ext[i] {
      assert name[k + i] == name[k..][i] == ext[i];
      assert ext[i] in ext && forall c :: c in ".safetensors" || c in ".bin" || c in ".pt" ==> !('A' <= c <= 'Z');
    }
    assert Lower(name)[k..] == ext;
  }

  lemma LowerKeepsStem(name: string)
    requires LowerExtension(name)
    ensures Stem(name, Lower(name)) == Stem(name, name)
  {
    var ext := if EndsWith(name, ".safetensors") then ".safetensors" else if EndsWith(name, ".bin") then ".bin" else ".pt";
    LowerKeepsExtension(name, ext);
    CutExtension(name, ext, name);
    CutExtension(name, ext, Lower(name));
  }

  /** When both programs read a shard they read the same. */
  lemma BothReadAlike(name: string)
    requires ParseShardName(name).Some? && PyShardName(name).Some?
    ensures ParseShardName(name) == PyShardName(name)
  {
    LowerKeepsStem(name);
    var p := SplitStem(Stem(name, name).value).value;
    RustReadsPlain(p.idx);
    RustReadsPlain(p.total);
    PlainReadAlike(p.idx);
    PlainReadAlike(p.total);
  }

  /** Both programs read the same shard, or none, exactly out of a regular name. */
  lemma ShardNamesAgreeIff(name: string)
    ensures ParseShardName(name) == PyShardName(name) <==> RegularShard(name)
  {
    if LowerExtension(name) { LowerKeepsStem(name); }
    var stem := Stem(name, Lower(name));
    if stem.Some? && SplitStem(stem.value).Some? {
      PartsAgreeIff(SplitStem(stem.value).value);
    }
  }

  lemma {:induction false} KeepsPrefix(a: string, t: string)
    requires '_' !in a
    ensures WithoutUnderscores(a + t) == a + WithoutUnderscores(t)
  {
    if a == "" {
      assert a + t == t;
    } else {
      KeepsPrefix(a[1..], t);
      assert (a + t)[0] == a[0] && (a + t)[1..] == a[1..] + t && a[0] in a;
      assert [a[0]] + (a[1..] + WithoutUnderscores(t)) == a + WithoutUnderscores(t);
    }
  }

  lemma NothingDropped(a: string)
    requires '_' !in a
    ensures WithoutUnderscores(a) == a
  {
    KeepsPrefix(a, "");
    assert a + "" == a;
  }

  lemma LeadingUnderscore(t: string, b: string)
    requires t != "" && t[0] == '_' && t[1..] == b && '_' !in b
    ensures WithoutUnderscores(t) == b
  {
    NothingDropped(b);
  }

  lemma DropsUnderscore(a: string, b: string)
    requires '_' !in a && '_' !in b
    ensures WithoutUnderscores(a + "_" + b) == a + b
  {
    KeepsPrefix(a, "_" + b);
    LeadingUnderscore("_" + b, b);
    Regroup(a, "_", b);
  }

  lemma Regroup(a: string, b: string, c: string)
    ensures a + b + c == a + (b + c)
  {
  }

  lemma UnderscoredDigits(a: string, b: string)
    requires a != "" && b != "" && forall c :: c in a || c in b ==> IsDigit(c)
    ensures PyDigits(a + "_" + b) && PyUnsigned(a + "_" + b) == Some(Digits(a + b))
  {
    var s := a + "_" + b;
    DropsUnderscore(a, b);
    assert a[0] in a && b[|b| - 1] in b && s[0] == a[0] && s[|s| - 1] == b[|b| - 1];
    forall i | 0 < i < |s| ensures !(s[i - 1] == '_' && s[i] == '_') {
      if i <= |a| { assert s[i - 1] == a[i - 1] && a[i - 1] in a; } else { assert s[i] == b[i - |a| - 1] && s[i] in b; }
    }
  }

  /** An underscore between digits is a number to Python alone. */
  lemma UnderscoreSplitsReaders(a: string, b: string)
    requires a != "" && b != "" && forall c :: c in a || c in b ==> IsDigit(c)
    ensures PyInt(a + "_" + b) == Some(Digits(a + b)) && ParseU32(a + "_" + b) == None
  {
    var s := a + "_" + b;
    UnderscoredDigits(a, b);
    assert a[0] in a && b[|b| - 1] in b && s[0] == a[0] && s[|s| - 1] == b[|b| - 1];
    StripKeeps(s);
    assert s[|a|] == '_';
    RustRejects(s, |a|);
    Unsigned(s);
  }

  lemma Unsigned(t: string)
    requires t != "" && IsDigit(t[0])
    ensures PySigned(t) == AsInt(PyUnsigned(t))
  {
  }

  /** So is a blank before them. */
  lemma BlankSplitsReaders(t: string)
    requires t != "" && forall c :: c in t ==> IsDigit(c)
    ensures PyInt(" " + t) == Some(Digits(t)) && ParseU32(" " + t) == None
  {
    BlankIsStripped(t);
    DigitsReadByPython(t);
    RustRejects(" " + t, 0);
  }

  lemma BlankIsStripped(t: string)
    requires t != "" && forall c :: c in t ==> IsDigit(c)
    ensures Strip(" " + t) == t
  {
    assert (" " + t)[1..] == t;
    NothingToStrip(t);
    assert t[0] in t;
    assert StripLeft(t) == t;
  }

  // ---- parsing inverts printing ----

  function Zeros(k: nat): (s: string)
    ensures |s| == k && forall c :: c in s ==> c == '0'
  {
    if k == 0 then "" else Zeros(k - 1) + "0"
  }

  /** `{n:0width}`. */
  function Padded(n: nat, width: nat): (s: string)
    ensures s != "" && forall c :: c in s ==> IsDigit(c)
  {
    var d := Decimal(n);
    if |d| >= width then d else Zeros(width - |d|) + d
  }

  lemma {:induction false} DigitsAfterZeros(k: nat, d: string)
    requires forall c :: c in d ==> IsDigit(c)
    ensures Digits(Zeros(k) + d) == Digits(d)
  {
    var s := Zeros(k) + d;
    if d != "" {
      assert s[..|s| - 1] == Zeros(k) + d[..|d| - 1];
      DigitsAfterZeros(k, d[..|d| - 1]);
    } else if k > 0 {
      assert s[..|s| - 1] == Zeros(k - 1) + "";
      DigitsAfterZeros(k - 1, "");
    }
  }

  lemma DigitsOfPadded(n: nat, width: nat)
    ensures Digits(Padded(n, width)) == n
  {
    DigitsOfDecimal(n);
    if |Decimal(n)| < width { DigitsAfterZeros(width - |Decimal(n)|, Decimal(n)); }
  }

  function PrintShard(s: Shard, width: nat, ext: string): string
  {
    s.prefix + "-" + Padded(s.idx, width) + "-of-" + Padded(s.n, width) + ext
  }

  lemma CutOf(rest: string, b: string)
    requires b != "" && forall c :: c in b ==> IsDigit(c)
    ensures RFind(rest + "-of-" + b, "-of-") == Some(|rest|)
  {
    var stem := rest + "-of-" + b;
    assert MatchAt(stem, "-of-", |rest|);
    forall i: nat | |rest| < i ensures !MatchAt(stem, "-of-", i) {
      if i + 4 <= |stem| {
        assert forall j :: |rest| + 4 <= j < |stem| ==> stem[j] == b[j - |rest| - 4] && stem[j] in b;
        assert stem[i..i + 4][0] == stem[i] && stem[i..i + 4][1] == stem[i + 1];
        assert "-of-"[0] == '-' && "-of-"[1] == 'o';
      }
    }
  }

  lemma CutDash(prefix: string, a: string)
    requires forall c :: c in a ==> IsDigit(c)
    ensures RFind(prefix + "-" + a, "-") == Some(|prefix|)
  {
    var rest := prefix + "-" + a;
    assert MatchAt(rest, "-", |prefix|);
    forall i: nat | |prefix| < i ensures !MatchAt(rest, "-", i) {
      if i < |rest| {
        assert rest[i..i + 1][0] == rest[i] == a[i - |prefix| - 1] && rest[i] in a && "-"[0] == '-';
      }
    }
  }

  lemma CutStem(prefix: string, a: string, b: string)
    requires b != "" && forall c :: c in a || c in b ==> IsDigit(c)
    ensures SplitStem(prefix + "-" + a + "-of-" + b) == Some(Parts(prefix, a, b))
  {
    var rest := prefix + "-" + a;
    var stem := rest + "-of-" + b;
    CutOf(rest, b);
    CutDash(prefix, a);
    assert stem[..|rest|] == rest && stem[|rest| + 4..] == b;
    assert rest[..|prefix|] == prefix && rest[|prefix| + 1..] == a;
  }

  lemma CutExtension(name: string, ext: string, spelling: string)
    requires ext in [".safetensors", ".bin", ".pt"] && |spelling| == |name| && EndsWith(spelling, ext)
    ensures Stem(name, spelling) == Some(name[..|name| - |ext|])
  {
    var tail := spelling[|spelling| - |ext|..];
    assert tail[|ext| - 1] == spelling[|spelling| - 1];
    forall other | other in [".safetensors", ".bin", ".pt"] && EndsWith(spelling, other) ensures other == ext {
      var tail' := spelling[|spelling| - |other|..];
      assert tail'[|other| - 1] == spelling[|spelling| - 1] && tail'[|other| - 2] == spelling[|spelling| - 2];
      assert tail[|ext| - 2] == spelling[|spelling| - 2];
    }
  }

  lemma ParseOfParts(name: string, stem: string, p: Parts, i: nat, n: nat)
    requires Stem(name, name) == Some(stem) == Stem(name, Lower(name)) && SplitStem(stem) == Some(p)
    requires ParseU32(p.idx) == Fits(i) && ParseU32(p.total) == Fits(n) && PyInt(p.idx) == Some(i) && PyInt(p.total) == Some(n)
    requires 1 <= i <= n
    ensures ParseShardName(name) == if n <= U32_MAX then Some(Shard(p.head, i, n)) else None
    ensures PyShardName(name) == if p.head != "" then Some(Shard(p.head, i, n)) else None
  {
  }

  function Fits(n: nat): Option<nat> { if n <= U32_MAX then Some(n) else None }

  /** Parsing gives back the printed shard for every prefix, `-of-` or not:
      Rust up to 32-bit totals, Python whenever the prefix is not empty. */
  lemma ParseInvertsPrint(s: Shard, width: nat, ext: string)
    requires ext in [".safetensors", ".bin", ".pt"] && 1 <= s.idx <= s.n
    ensures ParseShardName(PrintShard(s, width, ext)) == if s.n <= U32_MAX then Some(s) else None
    ensures PyShardName(PrintShard(s, width, ext)) == if s.prefix != "" then Some(s) else None
  {
    var a, b := Padded(s.idx, width), Padded(s.n, width);
    var stem := s.prefix + "-" + a + "-of-" + b;
    assert PrintShard(s, width, ext) == stem + ext;
    EndsInExtension(stem, ext);
    CutExtension(stem + ext, ext, stem + ext);
    CutExtension(stem + ext, ext, Lower(stem + ext));
    assert (stem + ext)[..|stem|] == stem;
    CutStem(s.prefix, a, b);
    DigitsOfPadded(s.idx, width);
    DigitsOfPadded(s.n, width);
    DigitsReadAlike(a);
    DigitsReadAlike(b);
    ParseOfParts(stem + ext, stem, Parts(s.prefix, a, b), s.idx, s.n);
  }

  lemma EndsInExtension(stem: string, ext: string)
    requires ext in [".safetensors", ".bin", ".pt"]
    ensures EndsWith(stem + ext, ext) && EndsWith(Lower(stem + ext), ext)
  {
    assert (stem + ext)[|stem|..] == ext;
    LowerKeepsExtension(stem + ext, ext);
  }

  lemma PrintedParts(s: Shard, width: nat)
    requires s.prefix != "" && 1 <= s.idx <= s.n
    ensures PyShard(Parts(s.prefix, Padded(s.idx, width), Padded(s.n, width))) == Some(s)
  {
    DigitsOfPadded(s.idx, width);
    DigitsOfPadded(s.n, width);
    DigitsReadAlike(Padded(s.idx, width));
    DigitsReadAlike(Padded(s.n, width));
  }

  /** A printed shard with an upper-case extension is one to Python alone. */
  lemma UpperCaseSplitsReaders(s: Shard, width: nat)
    requires s.prefix != "" && 1 <= s.idx <= s.n
    ensures var name := PrintShard(s, width, ".BIN");
      ParseShardName(name) == None && PyShardName(name) == Some(s) && EndsWith(Lower(name), ".bin")
  {
    var stem := s.prefix + "-" + Padded(s.idx, width) + "-of-" + Padded(s.n, width);
    var name := stem + ".BIN";
    assert PrintShard(s, width, ".BIN") == name;
    EndsUpper(stem);
    CutExtension(name, ".bin", Lower(name));
    assert name[..|stem|] == stem;
    CutStem(s.prefix, Padded(s.idx, width), Padded(s.n, width));
    PrintedParts(s, width);
  }

  lemma EndsUpper(stem: string)
    ensures Stem(stem + ".BIN", stem + ".BIN") == None && EndsWith(Lower(stem + ".BIN"), ".bin")
  {
    var name := stem + ".BIN";
    forall ext | ext in [".safetensors", ".bin", ".pt"] ensures !EndsWith(name, ext) {
      if |ext| <= |name| { assert name[|name| - |ext|..][|ext| - 1] == name[|name| - 1] == 'N'; }
    }
    assert Lower(name)[|stem|..] == ".bin";
  }
}
