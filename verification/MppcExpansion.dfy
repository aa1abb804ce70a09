/** What a token list does to the history, byte by byte and without recursion (libfreerdp-core/mppc.c). */
module MppcExpansion {
  import opened Words
  import opened Bits
  import opened Mppc

  // ---- Frames and parts ----

  lemma OneToken(t: Token)
    ensures OutLength([t]) == match t case Literal(_) => 1 case Copy(_, n) => n case Skip => 0
  {
    assert [t][1..] == [];
  }

  lemma {:induction false} CopyFrame(h: History, pos: nat, offset: nat, length: nat)
    requires pos + length <= HISTORY
    ensures var g := CopyBytes(h, pos, offset, length);
            g[..pos] == h[..pos] && g[pos + length..] == h[pos + length..]
    decreases length
  {
    if length > 0 {
      var h' := h[pos := h[(pos - offset) % HISTORY]];
      CopyFrame(h', pos + 1, offset, length - 1);
      var g := CopyBytes(h, pos, offset, length);
      assert g[..pos] == g[..pos + 1][..pos] == h'[..pos + 1][..pos];
    }
  }

  /** Only the output range of the history changes. */
  lemma {:induction false} ExpandFrame(h: History, pos: nat, ts: seq<Token>)
    requires pos + OutLength(ts) <= HISTORY
    ensures var g := Expand(h, pos, ts); var end := pos + OutLength(ts);
            g[..pos] == h[..pos] && g[end..] == h[end..]
    decreases |ts|
  {
    hide CopyBytes;
    if ts != [] {
      OutLengthHead(ts);
      OneToken(ts[0]);
      var mid, h' := pos + OutLength(ts[..1]), ExpandOne(h, pos, ts[0]);
      if ts[0].Copy? { CopyFrame(h, pos, ts[0].offset, ts[0].length); }
      ExpandFrame(h', mid, ts[1..]);
      var g := Expand(h, pos, ts);
      assert g[..pos] == g[..mid][..pos] == h'[..mid][..pos] == h'[..pos] == h[..pos];
      var end := pos + OutLength(ts);
      assert h'[mid..][end - mid..] == h'[end..] && h[mid..][end - mid..] == h[end..];
    }
  }

  lemma {:induction false} OutLengthConcat(a: seq<Token>, b: seq<Token>)
    ensures OutLength(a + b) == OutLength(a) + OutLength(b)
  {
    if a == [] {
      assert a + b == b;
    } else {
      OutLengthConcat(a[1..], b);
      assert (a + b)[1..] == a[1..] + b;
    }
  }

  lemma ExpandNothing(h: History, pos: nat)
    requires pos <= HISTORY
    ensures OutLength([]) == 0 && Expand(h, pos, []) == h
  {
  }

  lemma ExpandHead(h: History, pos: nat, ts: seq<Token>)
    requires ts != [] && pos + OutLength(ts) <= HISTORY
    ensures ts[..1] == [ts[0]] && OutLength(ts) == OutLength(ts[..1]) + OutLength(ts[1..])
    ensures Expand(h, pos, ts) == Expand(ExpandOne(h, pos, ts[0]), pos + OutLength(ts[..1]), ts[1..])
  {
    hide ExpandOne;
    OutLengthHead(ts);
  }

  lemma {:induction false} ExpandConcat(h: History, pos: nat, a: seq<Token>, b: seq<Token>)
    requires pos + OutLength(a) + OutLength(b) <= HISTORY
    ensures OutLength(a + b) == OutLength(a) + OutLength(b)
    ensures Expand(h, pos, a + b) == Expand(Expand(h, pos, a), pos + OutLength(a), b)
    decreases |a|
  {
    hide ExpandOne, Expand, OutLength;
    OutLengthConcat(a, b);
    if a == [] {
      ExpandNothing(h, pos);
      assert a + b == b;
    } else {
      ExpandHead(h, pos, a);
      ExpandHead(h, pos, a + b);
      assert (a + b)[1..] == a[1..] + b && (a + b)[..1] == a[..1];
      OutLengthConcat(a[1..], b);
      ExpandConcat(ExpandOne(h, pos, a[0]), pos + OutLength(a[..1]), a[1..], b);
    }
  }

  // ---- Every copied byte ----

  /** Where byte i of a copy comes from: the last offset bytes in front of it, over and over, around the ring. */
  function Source(pos: nat, offset: nat, i: nat): (s: nat)
    requires offset > 0
    ensures s < 65536
  {
    (pos - offset + i % offset) % 65536
  }

  /** One step on in the copy is one step on in its source. */
  lemma SourceNext(pos: nat, offset: nat, i: nat)
    requires 1 <= offset < 65536 && i > 0 && pos < 65536
    ensures if i % offset == 0 then Source(pos + 1, offset, i - 1) == pos
        && Source(pos, offset, i) == Source(pos, offset, 0)
            else Source(pos + 1, offset, i - 1) == Source(pos, offset, i) != pos
  {
    var r := (i - 1) % offset;
    StepModulo(i, offset);
    if i % offset != 0 {
      NotSelf(pos, offset, i % offset);
    }
  }

  lemma StepModulo(i: nat, n: nat)
    requires n > 0 && i > 0
    ensures i % n == if (i - 1) % n == n - 1 then 0 else (i - 1) % n + 1
  {
    var q, r := (i - 1) / n, (i - 1) % n;
    assert i - 1 == n * q + r;
    if r == n - 1 {
      assert i == n * (q + 1) + 0;
      UniqueRest(i, n, q + 1, 0);
    } else {
      UniqueRest(i, n, q, r + 1);
    }
  }

  lemma UniqueRest(i: nat, n: nat, q: int, r: nat)
    requires i == n * q + r && r < n
    ensures i % n == r
  {
    var q', r' := i / n, i % n;
    assert i == n * q' + r';
    assert n * (q - q') == r' - r;
    if q > q' {
      Larger(n, q - q');
    } else if q < q' {
      Larger(n, q' - q);
    }
  }

  lemma Larger(n: nat, k: int)
    requires k >= 1
    ensures n * k >= n
  {
  }

  lemma NotSelf(pos: nat, offset: nat, r: nat)
    requires 0 < r < offset < 65536 && pos < 65536
    ensures (pos - offset + r) % 65536 != pos
  {
  }

  lemma CopyFirst(h: History, pos: nat, offset: nat, length: nat)
    requires offset >= 1 && pos + length <= 65536 && length > 0
    ensures CopyBytes(h, pos, offset, length)[pos] == h[Source(pos, offset, 0)]
  {
    var h' := h[pos := h[(pos - offset) % 65536]];
    CopyFrame(h', pos + 1, offset, length - 1);
    var g := CopyBytes(h, pos, offset, length);
    assert g[pos] == g[..pos + 1][pos] == h'[..pos + 1][pos];
  }

  lemma CopyUnfold(h: History, pos: nat, offset: nat, length: nat)
    requires offset >= 1 && pos + length <= 65536 && length > 0
    ensures CopyBytes(h, pos, offset, length)
        == CopyBytes(h[pos := h[Source(pos, offset, 0)]], pos + 1, offset, length - 1)
  {
  }

  lemma {:induction false} CopySource(h: History, pos: nat, offset: nat, length: nat, i: nat)
    requires 1 <= offset < 65536 && pos + length <= 65536 && i < length
    ensures CopyBytes(h, pos, offset, length)[pos + i] == h[Source(pos, offset, i)]
    decreases length
  {
    hide CopyBytes, Source;
    CopyUnfold(h, pos, offset, length);
    CopyFirst(h, pos, offset, length);
    if i > 0 {
      CopySource(h[pos := h[Source(pos, offset, 0)]], pos + 1, offset, length - 1, i - 1);
      SourceNext(pos, offset, i);
    }
  }

  /** Main result about copies: byte i is the byte that lay at (pos - offset + i mod offset) in the ring before the
      copy, whether the ranges overlap or wrap around. */
  lemma CopyAt(h: History, pos: nat, offset: nat, length: nat, i: nat)
    requires 1 <= offset < 65536 && pos + length <= 65536 && i < length
    ensures CopyBytes(h, pos, offset, length)[pos + i] == h[(pos - offset + i % offset) % 65536]
  {
    hide CopyBytes;
    CopySource(h, pos, offset, length, i);
  }

  // ---- Every byte of the output ----

  /** Token t at p, in terms of the history before the list and after it: a byte behind p has been written by then. */
  ghost predicate Written(h: History, g: History, p: nat, t: Token)
  {
    match t
    case Literal(b) => p < 65536 && g[p] == b
    case Copy(offset, length) =>
      && 1 <= offset < 65536 && p + length <= 65536
      && forall i :: 0 <= i < length ==> ByteCopied(h, g, p, offset, i)
    case Skip => true
  }

  ghost predicate ByteCopied(h: History, g: History, p: nat, offset: nat, i: nat)
    requires 1 <= offset < 65536 && p + i < 65536
  {
    var s := (p - offset + i % offset) % 65536;
    g[p + i] == if s < p then g[s] else h[s]
  }

  /** Copy offsets that the decoder meets. */
  predicate RealOffsets(ts: seq<Token>)
  {
    forall k :: 0 <= k < |ts| && ts[k].Copy? ==> 1 <= ts[k].offset < 65536
  }

  /** What the history g after the list is, given the history h before it: every token is written where the ones in
      front of it end, and the rest is as it was. */
  ghost predicate Explained(h: History, g: History, pos: nat, ts: seq<Token>)
    requires pos + OutLength(ts) <= 65536
  {
    && (forall n :: 0 <= n < |ts| ==> Written(h, g, pos + OutLength(ts[..n]), ts[n]))
    && g[..pos] == h[..pos] && g[pos + OutLength(ts)..] == h[pos + OutLength(ts)..]
  }

  lemma CopyWritten(h0: History, h: History, g: History, pos: nat, p: nat, offset: nat, length: nat)
    requires 1 <= offset < 65536 && pos <= p && p + length <= 65536 && h[p..] == h0[p..]
    requires g[..p + length] == CopyBytes(h, p, offset, length)[..p + length]
    ensures Written(h0, g, p, Copy(offset, length))
  {
    hide CopyBytes;
    var c := CopyBytes(h, p, offset, length);
    CopyFrame(h, p, offset, length);
    forall i | 0 <= i < length ensures ByteCopied(h0, g, p, offset, i) {
      CopyAt(h, p, offset, length, i);
      var s := (p - offset + i % offset) % 65536;
      assert g[p + i] == g[..p + length][p + i] == c[..p + length][p + i];
      if s < p {
        assert g[s] == g[..p + length][s] == c[..p + length][s];
        assert c[s] == c[..p][s] == h[..p][s];
      } else {
        assert h[s] == h[p..][s - p] == h0[p..][s - p];
      }
    }
  }

  lemma TokenWritten(h: History, pos: nat, ts: seq<Token>, n: nat)
    requires pos + OutLength(ts) <= 65536 && n < |ts| && RealOffsets(ts)
    ensures Written(h, Expand(h, pos, ts), pos + OutLength(ts[..n]), ts[n])
  {
    hide CopyBytes, Expand, OutLength, Written, ByteCopied;
    var a, t, b := ts[..n], ts[n], ts[n + 1..];
    assert ts == a + ([t] + b);
    OutLengthConcat(a, [t] + b);
    OutLengthConcat([t], b);
    ExpandConcat(h, pos, a, [t] + b);
    var p, h1 := pos + OutLength(a), Expand(h, pos, a);
    ExpandConcat(h1, p, [t], b);
    var h2, q := Expand(h1, p, [t]), p + OutLength([t]);
    var g := Expand(h2, q, b);
    ExpandFrame(h, pos, a);
    ExpandFrame(h2, q, b);
    OneExpanded(h1, p, t);
    OneToken(t);
    match t {
      case Literal(c) => LiteralWritten(h, g, p, c, h1);
      case Copy(offset, length) => CopyWritten(h, h1, g, pos, p, offset, length);
      case Skip => SkipWritten(h, g, p);
    }
  }

  lemma OneExpanded(h: History, pos: nat, t: Token)
    requires pos + OutLength([t]) <= 65536
    ensures Expand(h, pos, [t]) == ExpandOne(h, pos, t)
  {
    hide ExpandOne;
    ExpandHead(h, pos, [t]);
    assert [t][1..] == [];
  }

  lemma LiteralWritten(h: History, g: History, p: nat, b: byte, h1: History)
    requires p < 65536 && g[..p + 1] == h1[p := b][..p + 1]
    ensures Written(h, g, p, Literal(b))
  {
    assert g[p] == g[..p + 1][p] == h1[p := b][..p + 1][p];
  }

  lemma SkipWritten(h: History, g: History, p: nat)
    ensures Written(h, g, p, Skip)
  {
  }

  /** Main result: the expansion of a token list, described without recursion. */
  lemma ExpansionExplained(h: History, pos: nat, ts: seq<Token>)
    requires pos + OutLength(ts) <= 65536 && RealOffsets(ts)
    ensures Explained(h, Expand(h, pos, ts), pos, ts)
  {
    hide Expand, OutLength, Written;
    ExpandFrame(h, pos, ts);
    forall n | 0 <= n < |ts| ensures Written(h, Expand(h, pos, ts), pos + OutLength(ts[..n]), ts[n]) {
      TokenWritten(h, pos, ts, n);
    }
  }

  /** No other history fits the description. */
  lemma ExplainedOnce(h: History, g: History, f: History, pos: nat, ts: seq<Token>)
    requires pos + OutLength(ts) <= 65536 && Explained(h, g, pos, ts) && Explained(h, f, pos, ts)
    ensures g == f
  {
    hide OutLength, Written;
    SameUpTo(h, g, f, pos, ts, |ts|);
    assert ts[..|ts|] == ts;
    var end := pos + OutLength(ts);
    assert g == g[..end] + g[end..] && f == f[..end] + f[end..];
  }

  lemma {:induction false} SameUpTo(h: History, g: History, f: History, pos: nat, ts: seq<Token>, n: nat)
    requires pos + OutLength(ts) <= 65536 && Explained(h, g, pos, ts) && Explained(h, f, pos, ts) && n <= |ts|
    ensures OutLength(ts[..n]) <= OutLength(ts)
    ensures g[..pos + OutLength(ts[..n])] == f[..pos + OutLength(ts[..n])]
    decreases n
  {
    hide OutLength, Written;
    assert ts == ts[..n] + ts[n..];
    OutLengthConcat(ts[..n], ts[n..]);
    if n == 0 {
      NoTokens();
    } else {
      SameUpTo(h, g, f, pos, ts, n - 1);
      var p := pos + OutLength(ts[..n - 1]);
      assert ts[..n] == ts[..n - 1] + [ts[n - 1]];
      OutLengthConcat(ts[..n - 1], [ts[n - 1]]);
      OneToken(ts[n - 1]);
      SameToken(h, g, f, p, ts[n - 1]);
    }
  }

  lemma NoTokens()
    ensures OutLength([]) == 0
  {
  }

  lemma SameToken(h: History, g: History, f: History, p: nat, t: Token)
    requires Written(h, g, p, t) && Written(h, f, p, t) && p + OutLength([t]) <= 65536 && g[..p] == f[..p]
    ensures g[..p + OutLength([t])] == f[..p + OutLength([t])]
  {
    hide OutLength;
    OneToken(t);
    var n := OutLength([t]);
    forall j | 0 <= j < p + n ensures g[j] == f[j] {
      if j < p {
        assert g[j] == g[..p][j] == f[..p][j];
      } else if t.Copy? {
        var i := j - p;
        assert ByteCopied(h, g, p, t.offset, i) && ByteCopied(h, f, p, t.offset, i);
        var s := (p - t.offset + i % t.offset) % 65536;
        if s < p { assert g[s] == g[..p][s] == f[..p][s]; }
      }
    }
  }

  /** The offsets of parsed tokens are real. */
  lemma {:induction false} ParsedOffsets(v: Variant, bits: seq<bool>)
    ensures RealOffsets(Parse(v, bits))
    decreases |bits|
  {
    hide ReadHead, ReadLength, Ahead;
    if |bits| >= 8 {
      var h := ReadHead(v, Ahead(bits));
      var rest := Drop(bits, h.used);
      ParsedOffsets(v, rest);
      if h.Off? && h.offset != 0 { ParsedOffsets(v, Drop(rest, ReadLength(v, Ahead(rest)).used)); }
    }
  }
}
