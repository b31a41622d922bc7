/**
 The map converter's palette compaction (Maps/parse.js). The voxels of a
 MagicaVoxel model refer to a 256-entry colour table; the converter keeps only
 the colours actually used, in the order they are first met, renumbers every
 voxel's colour to its position in that short list, and emits the matching
 colour-table entries as the map's palette.
 */
module Palette {
  import opened Wrappers
  import opened MapFormat

  /** The colour indices of the voxels, in voxel order. */
  function ColorsOf(xyzi: seq<Voxel>): (cs: seq<int>)
    ensures |cs| == |xyzi|
    ensures forall k :: 0 <= k < |xyzi| ==> cs[k] == xyzi[k].c
  {
    seq(|xyzi|, k requires 0 <= k < |xyzi| => xyzi[k].c)
  }

  /**
   JavaScript's `Array.prototype.indexOf` on integers: the position of the first
   element equal to `v`, or -1 when there is none.
   */
  function IndexOf(s: seq<int>, v: int): (r: int)
    ensures r == -1 <==> v !in s
    ensures r != -1 ==> 0 <= r < |s| && s[r] == v
    ensures forall k :: 0 <= k < r ==> s[k] != v
  {
    if s == [] then -1
    else if s[0] == v then 0
    else
      var r := IndexOf(s[1..], v);
      if r == -1 then -1 else r + 1
  }

  /** No value occurs twice in `s`. */
  predicate NoDuplicates(s: seq<int>)
  {
    forall i, j :: 0 <= i < j < |s| ==> s[i] != s[j]
  }

  /**
   `colors` lists exactly the values occurring in `cs`, each once, ordered by the
   position of their first occurrence in `cs`.
   */
  ghost predicate FirstOccurrenceListing(cs: seq<int>, colors: seq<int>)
  {
    && (forall v :: v in colors <==> v in cs)
    && (forall i, j :: 0 <= i < j < |colors| ==> IndexOf(cs, colors[i]) < IndexOf(cs, colors[j]))
  }

  /**
   The `reduce` that collects the distinct colours: walks the voxels in order and
   appends a voxel's colour to the accumulator unless the accumulator already
   includes it.
   */
  method DistinctColors(xyzi: seq<Voxel>) returns (colors: seq<int>)
    ensures FirstOccurrenceListing(ColorsOf(xyzi), colors)
    ensures NoDuplicates(colors)
    ensures |colors| <= |xyzi|
  {
    ghost var cs := ColorsOf(xyzi);
    colors := [];
    var i := 0;
    while i < |xyzi|
      invariant 0 <= i <= |xyzi|
      invariant |colors| <= i
      invariant ListedUpTo(cs, colors, i)
    {
      var c := xyzi[i].c;
      ListedStep(cs, colors, i);
      if c !in colors {
        colors := colors + [c];
      }
      i := i + 1;
    }
    assert cs[..i] == cs;
  }

  /**
   The loop invariant of `DistinctColors`: after `i` voxels, `colors` lists the
   colours of the first `i` voxels, without duplicates, by first occurrence.
   */
  ghost predicate ListedUpTo(cs: seq<int>, colors: seq<int>, i: int)
    requires 0 <= i <= |cs|
  {
    && NoDuplicates(colors)
    && (forall v :: v in colors <==> v in cs[..i])
    && (forall k :: 0 <= k < |colors| ==> 0 <= IndexOf(cs, colors[k]) < i)
    && IncreasingKeys(cs, colors)
  }

  /** One step of the loop keeps its invariant. */
  lemma ListedStep(cs: seq<int>, colors: seq<int>, i: int)
    requires 0 <= i < |cs|
    requires ListedUpTo(cs, colors, i)
    ensures ListedUpTo(cs, if cs[i] in colors then colors else colors + [cs[i]], i + 1)
  {
    assert cs[..i + 1] == cs[..i] + [cs[i]];
    if cs[i] !in colors {
      ListedAppend(cs, colors, i);
    }
  }

  /** The step that appends a colour met for the first time. */
  lemma ListedAppend(cs: seq<int>, colors: seq<int>, i: int)
    requires 0 <= i < |cs|
    requires ListedUpTo(cs, colors, i)
    requires cs[i] !in colors
    ensures ListedUpTo(cs, colors + [cs[i]], i + 1)
  {
    var c, next := cs[i], colors + [cs[i]];
    assert cs[..i + 1] == cs[..i] + [c];
    assert c !in cs[..i];
    FirstOccurrenceAt(cs, i);
    forall k | 0 <= k < |next|
      ensures 0 <= IndexOf(cs, next[k]) < i + 1
    {
      if k < |colors| {
        assert next[k] == colors[k];
      }
    }
    forall k, l | 0 <= k < l < |next|
      ensures IndexOf(cs, next[k]) < IndexOf(cs, next[l])
    {
      assert next[k] == colors[k];
      if l < |colors| {
        assert next[l] == colors[l];
      }
    }
  }

  /** A value met for the first time at position `i` has `IndexOf` equal to `i`. */
  lemma FirstOccurrenceAt(cs: seq<int>, i: int)
    requires 0 <= i < |cs|
    requires cs[i] !in cs[..i]
    ensures IndexOf(cs, cs[i]) == i
  {
    var r := IndexOf(cs, cs[i]);
    if r < i {
      assert false;
    }
  }

  /** In a list without duplicates, `IndexOf` finds each element at its own position. */
  lemma IndexOfDistinct(s: seq<int>, i: int)
    requires NoDuplicates(s)
    requires 0 <= i < |s|
    ensures IndexOf(s, s[i]) == i
  {
  }

  /**
   The colour list is determined by the voxels: two lists that both list the
   colours of `cs` by first occurrence are equal. So the ensures of
   `DistinctColors` pin its result down completely.
   */
  lemma {:induction false} ListingUnique(cs: seq<int>, a: seq<int>, b: seq<int>)
    requires FirstOccurrenceListing(cs, a)
    requires FirstOccurrenceListing(cs, b)
    ensures a == b
  {
    SortedByKeyUnique(cs, a, b);
  }

  /** Keys strictly increasing along `s`. */
  predicate IncreasingKeys(cs: seq<int>, s: seq<int>)
  {
    forall i, j :: 0 <= i < j < |s| ==> IndexOf(cs, s[i]) < IndexOf(cs, s[j])
  }

  /**
   Proof hint for the uniqueness proof: names the term `s[i] in s` so that the
   solver can use the membership requirement on that element.
   */
  lemma Member(s: seq<int>, i: int)
    ensures 0 <= i < |s| ==> s[i] in s
  {
  }

  /** Along a list with increasing keys, every element before the last has a smaller key. */
  lemma KeyBelowLast(cs: seq<int>, s: seq<int>, v: int)
    requires IncreasingKeys(cs, s) && |s| > 0
    requires v in s[..|s| - 1]
    ensures IndexOf(cs, v) < IndexOf(cs, s[|s| - 1])
  {
    var k :| 0 <= k < |s| - 1 && s[..|s| - 1][k] == v;
    assert s[k] == v;
  }

  /** Two lists with increasing keys and the same elements end with the same element. */
  lemma SameLast(cs: seq<int>, a: seq<int>, b: seq<int>)
    requires forall v :: v in a <==> v in b
    requires IncreasingKeys(cs, a) && IncreasingKeys(cs, b)
    requires |a| > 0 && |b| > 0
    ensures a[|a| - 1] == b[|b| - 1]
  {
    var x, y := a[|a| - 1], b[|b| - 1];
    assert x in a && y in b;
    if x != y {
      assert false;
    }
  }

  /** Dropping that common last element leaves lists with the same elements. */
  lemma SameInit(cs: seq<int>, a: seq<int>, b: seq<int>, v: int)
    requires forall v :: v in a <==> v in b
    requires IncreasingKeys(cs, a) && IncreasingKeys(cs, b)
    requires |a| > 0 && |b| > 0 && a[|a| - 1] == b[|b| - 1]
    requires v in a[..|a| - 1]
    ensures v in b[..|b| - 1]
  {
    KeyBelowLast(cs, a, v);
    assert v in a;
    var m :| 0 <= m < |b| && b[m] == v;
    assert b[..|b| - 1][m] == v;
  }

  lemma {:induction false} SortedByKeyUnique(cs: seq<int>, a: seq<int>, b: seq<int>)
    requires forall v :: v in a <==> v in b
    requires IncreasingKeys(cs, a) && IncreasingKeys(cs, b)
    ensures a == b
    decreases |a| + |b|
  {
    if a == [] {
      if b != [] {
        Member(b, 0);
        assert false;
      }
    } else if b == [] {
      Member(a, 0);
      assert false;
    } else {
      SameLast(cs, a, b);
      var a', b' := a[..|a| - 1], b[..|b| - 1];
      forall v
        ensures v in a' <==> v in b'
      {
        if v in a' {
          SameInit(cs, a, b, v);
        }
        if v in b' {
          SameInit(cs, b, a, v);
        }
      }
      SortedByKeyUnique(cs, a', b');
      assert a == a' + [a[|a| - 1]];
      assert b == b' + [b[|b| - 1]];
    }
  }

  /**
   The `blocks` of the map file: every voxel keeps its coordinates, and its colour
   becomes the colour's position in `colors` (`indexOf`). When `colors` holds every
   voxel colour, each new colour is a valid position and leads back to the old one.
   */
  function Remap(xyzi: seq<Voxel>, colors: seq<int>): (blocks: seq<Voxel>)
    ensures |blocks| == |xyzi|
    ensures forall j :: 0 <= j < |xyzi| ==> SameCell(blocks[j], xyzi[j])
    ensures forall j :: 0 <= j < |xyzi| && xyzi[j].c in colors ==>
              0 <= blocks[j].c < |colors| && colors[blocks[j].c] == xyzi[j].c
    ensures forall j :: 0 <= j < |xyzi| && xyzi[j].c in colors ==>
              forall k :: 0 <= k < blocks[j].c ==> colors[k] != xyzi[j].c
    ensures forall j :: 0 <= j < |xyzi| && xyzi[j].c !in colors ==> blocks[j].c == -1
  {
    seq(|xyzi|, j requires 0 <= j < |xyzi| =>
      var v := xyzi[j]; Voxel(v.x, v.y, v.z, IndexOf(colors, v.c)))
  }

  /** JavaScript indexing `rgba[index]`: `undefined` outside the array. */
  function Lookup(rgba: seq<Rgba>, index: int): (r: Option<Rgba>)
    ensures r.Some? <==> 0 <= index < |rgba|
    ensures r.Some? ==> r.value == rgba[index]
  {
    if 0 <= index < |rgba| then Some(rgba[index]) else None
  }

  /** The map's palette: the colour-table entry of each distinct colour, in list order. */
  function CompactPalette(colors: seq<int>, rgba: seq<Rgba>): (palette: seq<Option<Rgba>>)
    ensures |palette| == |colors|
    ensures forall i :: 0 <= i < |colors| && 0 <= colors[i] < |rgba| ==> palette[i] == Some(rgba[colors[i]])
    ensures forall i :: 0 <= i < |colors| && !(0 <= colors[i] < |rgba|) ==> palette[i] == None
  {
    seq(|colors|, i requires 0 <= i < |colors| => Lookup(rgba, colors[i]))
  }

  /**
   With the colour list the converter builds, no block gets colour -1: every block
   colour is a valid palette position, and it leads back to the voxel's original
   colour.
   */
  lemma {:induction false} RemapRoundTrip(xyzi: seq<Voxel>, colors: seq<int>, j: int)
    requires FirstOccurrenceListing(ColorsOf(xyzi), colors)
    requires 0 <= j < |xyzi|
    ensures 0 <= Remap(xyzi, colors)[j].c < |colors|
    ensures colors[Remap(xyzi, colors)[j].c] == xyzi[j].c
  {
    assert ColorsOf(xyzi)[j] == xyzi[j].c;
  }

  /** A first-occurrence listing never repeats a colour. */
  lemma ListingHasNoDuplicates(cs: seq<int>, colors: seq<int>)
    requires FirstOccurrenceListing(cs, colors)
    ensures NoDuplicates(colors)
  {
  }

  /** Every listed colour is the new colour of at least one block. */
  lemma {:induction false} EveryColorUsed(xyzi: seq<Voxel>, colors: seq<int>, i: int) returns (j: int)
    requires FirstOccurrenceListing(ColorsOf(xyzi), colors)
    requires 0 <= i < |colors|
    ensures 0 <= j < |xyzi| && Remap(xyzi, colors)[j].c == i
  {
    var cs := ColorsOf(xyzi);
    ListingHasNoDuplicates(cs, colors);
    assert colors[i] in colors;
    j := IndexOf(cs, colors[i]);
    assert xyzi[j].c == colors[i];
    IndexOfDistinct(colors, i);
    assert Remap(xyzi, colors)[j].c == i;
  }

  /**
   Looking up a block's new colour in the compacted palette gives the colour-table
   entry of the voxel's original colour.
   */
  lemma {:induction false} PaletteRoundTrip(xyzi: seq<Voxel>, rgba: seq<Rgba>, colors: seq<int>, j: int)
    requires FirstOccurrenceListing(ColorsOf(xyzi), colors)
    requires 0 <= j < |xyzi|
    ensures 0 <= Remap(xyzi, colors)[j].c < |CompactPalette(colors, rgba)|
    ensures CompactPalette(colors, rgba)[Remap(xyzi, colors)[j].c] == Lookup(rgba, xyzi[j].c)
  {
    RemapRoundTrip(xyzi, colors, j);
  }

  /**
   The converter's work on one decoded model: collect the distinct colours, remap
   the blocks, and compact the palette.
   */
  method Convert(result: Decoded) returns (final: MapFile)
    ensures |final.blocks| == |result.xyzi|
    ensures forall j :: 0 <= j < |result.xyzi| ==> SameCell(final.blocks[j], result.xyzi[j])
    ensures forall j :: 0 <= j < |result.xyzi| ==>
              0 <= final.blocks[j].c < |final.colors| &&
              final.colors[final.blocks[j].c] == Lookup(result.rgba, result.xyzi[j].c)
    ensures forall i :: 0 <= i < |final.colors| ==> i in ColorsOf(final.blocks)
    ensures forall j, k :: 0 <= j < |result.xyzi| && 0 <= k < |result.xyzi| ==>
              (result.xyzi[j].c == result.xyzi[k].c <==> final.blocks[j].c == final.blocks[k].c)
    ensures exists colors ::
              && FirstOccurrenceListing(ColorsOf(result.xyzi), colors)
              && final == MapFile(Remap(result.xyzi, colors), CompactPalette(colors, result.rgba))
    ensures |final.colors| <= |result.xyzi|
    ensures result.xyzi == [] ==> final.blocks == [] && final.colors == []
  {
    var colors := DistinctColors(result.xyzi);
    final := MapFile(Remap(result.xyzi, colors), CompactPalette(colors, result.rgba));
    forall j, k | 0 <= j < |result.xyzi| && 0 <= k < |result.xyzi|
      ensures result.xyzi[j].c == result.xyzi[k].c <==> final.blocks[j].c == final.blocks[k].c
    {
      RemapRoundTrip(result.xyzi, colors, j);
      RemapRoundTrip(result.xyzi, colors, k);
    }
    forall j | 0 <= j < |result.xyzi|
      ensures 0 <= final.blocks[j].c < |final.colors|
      ensures final.colors[final.blocks[j].c] == Lookup(result.rgba, result.xyzi[j].c)
    {
      PaletteRoundTrip(result.xyzi, result.rgba, colors, j);
    }
    forall i | 0 <= i < |final.colors|
      ensures i in ColorsOf(final.blocks)
    {
      var j := EveryColorUsed(result.xyzi, colors, i);
      assert ColorsOf(final.blocks)[j] == i;
    }
  }
}
