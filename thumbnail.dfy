/** `makeThumbnailObject`: the thumbnail tiles of a deep-zoom image, derived
    from its DZI URL by assuming a 1024x768 image, tile size 1024, overlap 0
    and format "png": pyramid level `l` (0..10) is a single tile
    `<base><l>/0_0.png`, filed under the key 2^l, where `<base>` is the DZI
    URL with its first ".dzi" replaced by "_files/". The keys stand for the
    JavaScript property names "1", "2", ..., "1024". */
module Thumbnail {
  import opened Js

  const MaxLevel: nat := 10

  function Pow2(n: nat): (r: nat)
    ensures r >= 1
  {
    if n == 0 then 1 else 2 * Pow2(n - 1)
  }

  lemma {:induction false} Pow2Increasing(a: nat, b: nat)
    requires a < b
    ensures Pow2(a) < Pow2(b)
    decreases b
  {
    if a < b - 1 {
      Pow2Increasing(a, b - 1);
    }
  }

  /** `dzi.url.replace(".dzi", "_files/")`. */
  function TileBase(dziUrl: string): string {
    ReplaceFirst(dziUrl, ".dzi", "_files/")
  }

  /** `base + level + "/0_0.png"`. */
  function TileUrl(base: string, level: nat): string {
    base + NatToString(level) + "/0_0.png"
  }

  /** The entries the loop has written once levels 0 .. n-1 are done. */
  function Levels(base: string, n: nat): map<nat, string> {
    if n == 0 then map[] else Levels(base, n - 1)[Pow2(n - 1) := TileUrl(base, n - 1)]
  }

  /** The object `makeThumbnailObject` returns for a DZI whose url is `dziUrl`;
      the specification the method `MakeThumbnailObject` is proved to meet. */
  function ThumbnailObject(dziUrl: string): map<nat, string> {
    Levels(TileBase(dziUrl), MaxLevel + 1)
  }

  /** The keys 2^0 .. 2^(n-1). */
  function PowerKeys(n: nat): set<nat> {
    if n == 0 then {} else PowerKeys(n - 1) + {Pow2(n - 1)}
  }

  lemma {:induction false} PowerKeysBelow(n: nat)
    ensures forall k :: k in PowerKeys(n) ==> k < Pow2(n)
  {
    if n > 0 {
      PowerKeysBelow(n - 1);
    }
  }

  /** The first n levels give exactly the n keys 2^0 .. 2^(n-1): a later
      level never lands on an earlier level's key. */
  lemma {:induction false} LevelsKeys(base: string, n: nat)
    ensures Levels(base, n).Keys == PowerKeys(n)
    ensures |Levels(base, n)| == n
  {
    if n > 0 {
      LevelsKeys(base, n - 1);
      PowerKeysBelow(n - 1);
      assert Pow2(n - 1) !in Levels(base, n - 1);
    }
  }

  /** Level l's tile is filed under 2^l and is not overwritten later. */
  lemma {:induction false} LevelsValues(base: string, n: nat)
    ensures forall l :: 0 <= l < n ==> Pow2(l) in Levels(base, n) && Levels(base, n)[Pow2(l)] == TileUrl(base, l)
  {
    if n > 0 {
      LevelsValues(base, n - 1);
      forall l | 0 <= l < n - 1
        ensures Pow2(l) != Pow2(n - 1)
      {
        Pow2Increasing(l, n - 1);
      }
    }
  }

  lemma PowerKeysEleven()
    ensures PowerKeys(11) == {1, 2, 4, 8, 16, 32, 64, 128, 256, 512, 1024}
  {
    assert Pow2(1) == 2 && Pow2(2) == 4 && Pow2(3) == 8 && Pow2(4) == 16 && Pow2(5) == 32;
    assert Pow2(6) == 64 && Pow2(7) == 128 && Pow2(8) == 256 && Pow2(9) == 512 && Pow2(10) == 1024;
    assert PowerKeys(1) == {1};
    assert PowerKeys(2) == {1, 2};
    assert PowerKeys(3) == {1, 2, 4};
    assert PowerKeys(4) == {1, 2, 4, 8};
    assert PowerKeys(5) == {1, 2, 4, 8, 16};
    assert PowerKeys(6) == {1, 2, 4, 8, 16, 32};
    assert PowerKeys(7) == {1, 2, 4, 8, 16, 32, 64};
    assert PowerKeys(8) == {1, 2, 4, 8, 16, 32, 64, 128};
    assert PowerKeys(9) == {1, 2, 4, 8, 16, 32, 64, 128, 256};
    assert PowerKeys(10) == {1, 2, 4, 8, 16, 32, 64, 128, 256, 512};
  }

  /** The thumbnail object has exactly the eleven keys 1, 2, 4, ..., 1024. */
  lemma ThumbnailKeys(dziUrl: string)
    ensures ThumbnailObject(dziUrl).Keys == {1, 2, 4, 8, 16, 32, 64, 128, 256, 512, 1024}
    ensures |ThumbnailObject(dziUrl)| == 11
  {
    LevelsKeys(TileBase(dziUrl), MaxLevel + 1);
    PowerKeysEleven();
  }

  /** A DZI URL that ends in ".dzi" (and has no earlier ".dzi") gives the
      tile base `<stem>_files/`. */
  lemma DziSuffixBase(stem: string)
    requires forall j: nat :: !OccursAt(stem, ".dzi", j)
    ensures TileBase(stem + ".dzi") == stem + "_files/"
  {
    var s := stem + ".dzi";
    var n := |stem|;
    assert OccursAt(s, ".dzi", n) by { assert s[n..n + 4] == ".dzi"; }
    forall j: nat | j < n
      ensures !OccursAt(s, ".dzi", j)
    {
      if j + 4 <= n {
        assert !OccursAt(stem, ".dzi", j);
        assert s[j..j + 4] == stem[j..j + 4];
      } else {
        assert s[n] == '.' && ".dzi"[n - j] != '.';
        assert j + 4 <= |s| && s[j..j + 4][n - j] == s[n];
        assert s[j..j + 4] != ".dzi";
      }
    }
    assert s[..n] == stem && s[n + 4..] == "";
  }

  /** Only the FIRST ".dzi" is replaced. */
  lemma OnlyFirstDziReplaced()
    ensures TileBase("a.dzi.dzi") == "a_files/.dzi"
  {
    var s := "a.dzi.dzi";
    assert OccursAt(s, ".dzi", 1) by { assert s[1..5] == ".dzi"; }
    assert !OccursAt(s, ".dzi", 0) by { assert s[0..4][0] == 'a'; }
    assert s[..1] + "_files/" + s[5..] == "a_files/.dzi";
  }

  /** The loop of `makeThumbnailObject`: for level 0..10 it files
      `base + level + "/0_0.png"` under `Math.pow(2, level)`. */
  method MakeThumbnailObject(dziUrl: string) returns (thumb: map<nat, string>)
    ensures thumb == ThumbnailObject(dziUrl)
    ensures |thumb| == MaxLevel + 1
    ensures forall level :: 0 <= level <= MaxLevel ==>
      Pow2(level) in thumb && thumb[Pow2(level)] == TileUrl(TileBase(dziUrl), level)
  {
    var base := ReplaceFirst(dziUrl, ".dzi", "_files/");
    thumb := map[];
    for level := 0 to MaxLevel + 1
      invariant thumb == Levels(base, level)
    {
      thumb := thumb[Pow2(level) := base + NatToString(level) + "/0_0.png"];
    }
    LevelsKeys(base, MaxLevel + 1);
    LevelsValues(base, MaxLevel + 1);
  }
}
