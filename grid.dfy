/** Row-major grids: index arithmetic and rectangular windows. */
module Grid {

  /** (r + 1) * w stays within n * w for every row r < n. */
  lemma RowFits(r: nat, n: nat, w: nat)
    requires r < n
    ensures r * w + w == (r + 1) * w <= n * w
  {
    MulMono(r + 1, n, w);
  }

  lemma MulMono(a: nat, b: nat, w: nat)
    requires a <= b
    ensures 0 <= a * w <= b * w
  {
    assert b * w == a * w + (b - a) * w;
  }

  /** Element k of a concatenation. */
  lemma ConcatAt(a: seq<real>, b: seq<real>, k: nat)
    requires k < |a| + |b|
    ensures (a + b)[k] == if k < |a| then a[k] else b[k - |a|]
  {
  }

  /** Rows 0 .. h - 1, columns c0 .. c0 + w - 1 of a grid `gw` values wide exist in
      n values. */
  predicate WindowFits(n: nat, gw: nat, c0: nat, w: nat, h: nat) {
    h == 0 || (h - 1) * gw + c0 + w <= n
  }

  lemma WindowFitsLess(n: nat, gw: nat, c0: nat, w: nat, h: nat, i: nat)
    requires WindowFits(n, gw, c0, w, h) && i < h
    ensures i * gw + c0 + w <= n
  {
    MulMono(i, h - 1, gw);
  }

  lemma WindowFitsShorter(n: nat, gw: nat, c0: nat, w: nat, h: nat)
    requires WindowFits(n, gw, c0, w, h) && h > 0
    ensures WindowFits(n, gw, c0, w, h - 1)
  {
    if h > 1 {
      WindowFitsLess(n, gw, c0, w, h, h - 2);
    }
  }

  lemma WindowFitsPrefix(n: nat, gw: nat, c0: nat, w: nat, h: nat, i: nat)
    requires WindowFits(n, gw, c0, w, h) && i <= h
    ensures WindowFits(n, gw, c0, w, i)
  {
    if i > 0 {
      WindowFitsLess(n, gw, c0, w, h, i - 1);
    }
  }

  /** The first h rows of the window, one after another. */
  function Window(s: seq<real>, gw: nat, c0: nat, w: nat, h: nat): (r: seq<real>)
    requires WindowFits(|s|, gw, c0, w, h)
    ensures |r| == h * w
  {
    if h == 0 then []
    else
      WindowFitsLess(|s|, gw, c0, w, h, h - 1);
      WindowFitsShorter(|s|, gw, c0, w, h);
      var start := (h - 1) * gw + c0;
      Window(s, gw, c0, w, h - 1) + s[start .. start + w]
  }

  /** Element (i, j) of the window is element (i, c0 + j) of the grid. */
  lemma {:induction false} WindowAt(s: seq<real>, gw: nat, c0: nat, w: nat, h: nat, i: nat, j: nat)
    requires WindowFits(|s|, gw, c0, w, h) && i < h && j < w
    ensures i * gw + c0 + j < |s| && i * w + j < h * w
    ensures Window(s, gw, c0, w, h)[i * w + j] == s[i * gw + c0 + j]
  {
    assert i * gw + c0 + j < |s| && i * w + j < h * w by {
      WindowFitsLess(|s|, gw, c0, w, h, i);
      RowFits(i, h, w);
    }
    if i < h - 1 {
      assert WindowFits(|s|, gw, c0, w, h - 1) && i * w + j < (h - 1) * w by {
        WindowFitsShorter(|s|, gw, c0, w, h);
        RowFits(i, h - 1, w);
      }
      WindowAt(s, gw, c0, w, h - 1, i, j);
      WindowPrefixAt(s, gw, c0, w, h, i * w + j);
    } else {
      WindowLastAt(s, gw, c0, w, h, i, j);
    }
  }

  /** The rows before the last are those of the shorter window. */
  lemma WindowPrefixAt(s: seq<real>, gw: nat, c0: nat, w: nat, h: nat, k: nat)
    requires WindowFits(|s|, gw, c0, w, h) && h > 0 && k < (h - 1) * w
    ensures WindowFits(|s|, gw, c0, w, h - 1)
    ensures k < h * w && Window(s, gw, c0, w, h)[k] == Window(s, gw, c0, w, h - 1)[k]
  {
    WindowFitsShorter(|s|, gw, c0, w, h);
    RowFits(h - 1, h, w);
    WindowFitsLess(|s|, gw, c0, w, h, h - 1);
    var start := (h - 1) * gw + c0;
    ConcatAt(Window(s, gw, c0, w, h - 1), s[start .. start + w], k);
  }

  /** The last row of the window is read from row h - 1 of the grid. */
  lemma WindowLastAt(s: seq<real>, gw: nat, c0: nat, w: nat, h: nat, i: nat, j: nat)
    requires WindowFits(|s|, gw, c0, w, h) && i == h - 1 && h > 0 && j < w
    ensures i * gw + c0 + j < |s| && i * w + j < h * w
    ensures Window(s, gw, c0, w, h)[i * w + j] == s[i * gw + c0 + j]
  {
    WindowFitsShorter(|s|, gw, c0, w, h);
    RowFits(i, h, w);
    WindowFitsLess(|s|, gw, c0, w, h, i);
    var start := i * gw + c0;
    ConcatAt(Window(s, gw, c0, w, i), s[start .. start + w], i * w + j);
  }

  /** The first i rows of the window are in place at the front of `cur`. */
  predicate Copied(s: seq<real>, gw: nat, c0: nat, w: nat, h: nat, i: nat, cur: seq<real>) {
    i <= h && WindowFits(|s|, gw, c0, w, h) && |cur| == h * w &&
    (WindowFitsPrefix(|s|, gw, c0, w, h, i); MulMono(i, h, w); cur[..i * w] == Window(s, gw, c0, w, i))
  }

  /** Where row i is read from and written to, and that both ranges exist. */
  lemma RowPlace(s: seq<real>, gw: nat, c0: nat, w: nat, h: nat, i: nat, cur: seq<real>)
    requires Copied(s, gw, c0, w, h, i, cur) && i < h
    ensures i * gw + c0 + w <= |s| && i * w + w <= |cur|
  {
    WindowFitsLess(|s|, gw, c0, w, h, i);
    RowFits(i, h, w);
  }

  /** Copying row i of the window after the first i rows gives the first i + 1 rows. */
  lemma WindowStep(s: seq<real>, gw: nat, c0: nat, w: nat, h: nat, i: nat, before: seq<real>, after: seq<real>)
    requires Copied(s, gw, c0, w, h, i, before) && i < h
    requires i * gw + c0 + w <= |s| && i * w + w <= |before|
    requires after == before[..i * w] + s[i * gw + c0 .. i * gw + c0 + w] + before[i * w + w..]
    ensures Copied(s, gw, c0, w, h, i + 1, after)
  {
    WindowFitsPrefix(|s|, gw, c0, w, h, i + 1);
    RowFits(i, h, w);
    assert after[..(i + 1) * w] == before[..i * w] + s[i * gw + c0 .. i * gw + c0 + w];
  }

  lemma CopiedAll(s: seq<real>, gw: nat, c0: nat, w: nat, h: nat, cur: seq<real>)
    requires Copied(s, gw, c0, w, h, h, cur)
    ensures cur == Window(s, gw, c0, w, h)
  {
    assert cur == cur[..h * w];
  }

  /** Copies the window, row after row, into a fresh array. */
  method CopyWindow(data: array<real>, gw: nat, c0: nat, w: nat, h: nat) returns (result: array<real>)
    requires WindowFits(data.Length, gw, c0, w, h)
    ensures fresh(result)
    ensures result[..] == Window(data[..], gw, c0, w, h)
  {
    ghost var s := data[..];
    result := new real[h * w];
    var i := 0;
    while i < h
      invariant Copied(s, gw, c0, w, h, i, result[..])
    {
      CopyWindowRow(data, gw, c0, w, h, i, result, s);
      i := i + 1;
    }
    CopiedAll(s, gw, c0, w, h, result[..]);
  }

  /** One pass of the window loop: row i is copied behind the rows already there. */
  method CopyWindowRow(data: array<real>, gw: nat, c0: nat, w: nat, h: nat, i: nat, result: array<real>, ghost s: seq<real>)
    requires data != result && s == data[..] && i < h && Copied(s, gw, c0, w, h, i, result[..])
    modifies result
    ensures Copied(s, gw, c0, w, h, i + 1, result[..])
  {
    RowPlace(s, gw, c0, w, h, i, result[..]);
    ghost var before := result[..];
    CopyRow(data, i * gw + c0, result, i * w, w);
    WindowStep(s, gw, c0, w, h, i, before, result[..]);
  }

  /** One row of a window: `len` consecutive values of `data` from `src` on are
      copied to `result` from `dst` on; nothing else changes. */
  method CopyRow(data: array<real>, src: nat, result: array<real>, dst: nat, len: nat)
    requires data != result && src + len <= data.Length && dst + len <= result.Length
    modifies result
    ensures result[..] == old(result[..])[..dst] + data[src .. src + len] + old(result[..])[dst + len..]
  {
    ghost var before := result[..];
    var j, col := 0, src;
    while j < len
      invariant 0 <= j <= len && col == src + j
      invariant forall k :: dst <= k < dst + j ==> result[k] == data[k - dst + src]
      invariant forall k :: 0 <= k < result.Length && !(dst <= k < dst + j) ==> result[k] == before[k]
    {
      result[dst + j] := data[col];
      col, j := col + 1, j + 1;
    }
    assert result[..] == before[..dst] + data[src .. src + len] + before[dst + len..];
  }

}
