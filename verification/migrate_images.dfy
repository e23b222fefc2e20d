/**
 * The one-off migration script (scripts/migrateImages.ts): stored products
 * that still carry full Cloudinary image URLs get the URLs' public ids in
 * `cloudinaryPublicIds`, and lose `imageUrls`.
 */
module MigrateImages {
  import opened Wrappers
  import opened Strings

  /** `/^\d+$/.test(seg.substring(1))` after `seg.startsWith('v')`: a version segment such as `v1234567890`. */
  predicate IsVersion(seg: string)
  {
    |seg| >= 2 && seg[0] == 'v' && AllDigits(seg[1..])
  }

  /** `s.split('.')[0]`: everything before the first dot. */
  function BeforeDot(s: string): (r: string)
    ensures '.' !in r
    ensures '.' !in s ==> r == s
    ensures '.' in s ==> r == s[..IndexOf(s, '.')]
  {
    Split(s, '.')[0]
  }

  /** The public id read from the segments after `upload`: a leading version segment is dropped. */
  function PublicIdAfter(relevant: seq<string>): string
  {
    if |relevant| > 0 && IsVersion(relevant[0]) then BeforeDot(Join(relevant[1..], '/'))
    else BeforeDot(Join(relevant, '/'))
  }

  /**
   * `extractPublicId`: the URL's `/`-segments after the first one equal to
   * `upload`, without a version segment, joined and cut at the first dot;
   * None when no segment is `upload`.
   */
  function ExtractPublicId(url: string): (r: Option<string>)
    ensures r.None? <==> "upload" !in Split(url, '/')
    ensures r.Some? ==> '.' !in r.value
    // the id is read from the segments after the `upload` segment that has none before it
    ensures forall i :: 0 <= i < |Split(url, '/')| && Split(url, '/')[i] == "upload" && "upload" !in Split(url, '/')[..i] ==>
              r == Some(PublicIdAfter(Split(url, '/')[i + 1..]))
  {
    var parts := Split(url, '/');
    if "upload" in parts then
      var uploadIndex := IndexOf(parts, "upload");
      forall i | 0 <= i < |parts| && parts[i] == "upload" && "upload" !in parts[..i]
        ensures uploadIndex == i
      {
        IndexOfUnique(parts, "upload", i);
      }
      Some(PublicIdAfter(parts[uploadIndex + 1..]))
    else
      None
  }

  /** Only the first `upload` segment counts: whatever follows it, later `upload` segments included, is the public id's material. */
  lemma FirstUploadCounts(before: seq<string>, after: seq<string>)
    requires "upload" !in before
    requires forall k :: 0 <= k < |before| ==> '/' !in before[k]
    requires forall k :: 0 <= k < |after| ==> '/' !in after[k]
    ensures ExtractPublicId(Join(before + ["upload"] + after, '/')) == Some(PublicIdAfter(after))
  {
    var parts := before + ["upload"] + after;
    forall k | 0 <= k < |parts|
      ensures '/' !in parts[k]
    {
      if k > |before| {
        assert parts[k] == after[k - |before| - 1];
      }
    }
    SplitJoin(parts, '/');
    assert parts[..|before|] == before;
    IndexOfUnique(parts, "upload", |before|);
    assert parts[|before| + 1..] == after;
  }

  /** A URL ending in `upload` yields the empty id, not None. */
  lemma UploadLastIsEmpty(before: seq<string>)
    requires "upload" !in before
    requires forall k :: 0 <= k < |before| ==> '/' !in before[k]
    ensures ExtractPublicId(Join(before + ["upload"], '/')) == Some("")
  {
    FirstUploadCounts(before, []);
    assert before + ["upload"] + [] == before + ["upload"];
    assert Split("", '.') == [""];
  }

  /** A segment that only looks like a version (`v` alone, `v12a`) stays in the id. */
  lemma NonVersionKept(seg: string, rest: seq<string>)
    requires !IsVersion(seg)
    ensures PublicIdAfter([seg] + rest) == BeforeDot(Join([seg] + rest, '/'))
  {
  }

  /** `v` alone and `v12a` are not version segments. */
  lemma NotVersions()
    ensures !IsVersion("v") && !IsVersion("v12a")
  {
    assert !IsDigit("v12a"[3]);
  }

  /** `v` followed by digits is a version segment and holds no slash. */
  lemma VersionSegment(digits: string)
    requires |digits| >= 1 && AllDigits(digits)
    ensures IsVersion(['v'] + digits) && Split(['v'] + digits, '/') == [['v'] + digits]
  {
    var version := ['v'] + digits;
    assert version[1..] == digits;
    forall k | 0 <= k < |version|
      ensures version[k] != '/'
    {
      if k > 0 { assert version[k] == digits[k - 1]; }
    }
  }

  /** Regrouping the pieces of a path around its last three separators. */
  lemma RegroupPath(p: string, a: string, b: string, file: string, sep: char)
    ensures p + [sep] + a + [sep] + b + [sep] + file == p + [sep] + (a + [sep] + (b + [sep] + file))
  {
  }

  /** A separator-free segment in front of a separator comes off as one piece. */
  lemma SegmentInFront(a: string, rest: string, sep: char)
    requires Split(a, sep) == [a]
    ensures Split(a + [sep] + rest, sep) == [a] + Split(rest, sep)
  {
    SplitAround(a, rest, sep);
  }

  /** Two separator-free segments in front of a separator come off as two pieces. */
  lemma TwoSegmentsInFront(a: string, b: string, rest: string, sep: char)
    requires Split(a, sep) == [a] && Split(b, sep) == [b]
    ensures Split(a + [sep] + (b + [sep] + rest), sep) == [a, b] + Split(rest, sep)
  {
    SegmentInFront(a, b + [sep] + rest, sep);
    SegmentInFront(b, rest, sep);
  }

  /** The segments of `p`, two separator-free segments `a` and `b`, and `file`, joined by separators. */
  lemma SegmentsAround(p: string, a: string, b: string, file: string, sep: char)
    requires Split(a, sep) == [a] && Split(b, sep) == [b]
    ensures Split(p + [sep] + a + [sep] + b + [sep] + file, sep) == Split(p, sep) + [a, b] + Split(file, sep)
  {
    RegroupPath(p, a, b, file, sep);
    SplitAround(p, a + [sep] + (b + [sep] + file), sep);
    TwoSegmentsInFront(a, b, file, sep);
  }

  /** A file name `<id>.<ext>`, split at its slashes and joined again, is cut back to `id`. */
  lemma FileNameCut(id: string, ext: string)
    requires '.' !in id
    ensures BeforeDot(Join(Split(id + ['.'] + ext, '/'), '/')) == id
  {
    var file := id + ['.'] + ext;
    JoinSplit(file, '/');
    assert file[|id|] == '.' && file[..|id|] == id;
    IndexOfUnique(file, '.', |id|);
  }

  /** A URL whose segments are `before`, `upload`, `after`, with no `upload` in `before`, yields the id read from `after`. */
  lemma UploadAt(url: string, before: seq<string>, after: seq<string>)
    requires Split(url, '/') == before + ["upload"] + after
    requires "upload" !in before
    ensures ExtractPublicId(url) == Some(PublicIdAfter(after))
  {
    var parts := before + ["upload"] + after;
    assert parts[..|before|] == before;
    IndexOfUnique(parts, "upload", |before|);
    assert parts[|before| + 1..] == after;
  }

  /** The segment `upload` holds no slash. */
  lemma UploadSegment()
    ensures Split("upload", '/') == ["upload"]
  {
  }

  /** The segments of `p/upload/<version>/<file>`. */
  lemma VersionUrlSegments(p: string, version: string, file: string)
    requires Split(version, '/') == [version]
    ensures Split(p + ['/'] + "upload" + ['/'] + version + ['/'] + file, '/')
            == Split(p, '/') + ["upload"] + ([version] + Split(file, '/'))
  {
    UploadSegment();
    SegmentsAround(p, "upload", version, file, '/');
  }

  /** A URL whose first `upload` segment is followed by a version segment yields the rest, cut at its first dot. */
  lemma ExtractAfterVersion(p: string, version: string, file: string)
    requires "upload" !in Split(p, '/')
    requires IsVersion(version) && Split(version, '/') == [version]
    ensures ExtractPublicId(p + ['/'] + "upload" + ['/'] + version + ['/'] + file)
            == Some(BeforeDot(Join(Split(file, '/'), '/')))
  {
    var after := [version] + Split(file, '/');
    VersionUrlSegments(p, version, file);
    UploadAt(p + ['/'] + "upload" + ['/'] + version + ['/'] + file, Split(p, '/'), after);
    assert after[0] == version && after[1..] == Split(file, '/');
  }

  /**
   * The round trip for a delivery URL `p/upload/v<digits>/<id>.<ext>`: it gives
   * back `id`, when no segment of `p` is `upload` and `id` has no dot.
   */
  lemma ExtractFromDeliveryUrl(p: string, digits: string, id: string, ext: string)
    requires "upload" !in Split(p, '/')
    requires |digits| >= 1 && AllDigits(digits)
    requires '.' !in id
    ensures ExtractPublicId(p + ['/'] + "upload" + ['/'] + (['v'] + digits) + ['/'] + (id + ['.'] + ext)) == Some(id)
  {
    VersionSegment(digits);
    ExtractAfterVersion(p, ['v'] + digits, id + ['.'] + ext);
    FileNameCut(id, ext);
  }

  /** The ids the script collects from a product's URLs: failed and empty extractions are skipped, order is kept. */
  function PublicIdsOf(urls: seq<string>): (ids: seq<string>)
    ensures forall k :: 0 <= k < |ids| ==> ids[k] != "" && '.' !in ids[k]
    ensures |ids| <= |urls|
  {
    if urls == [] then []
    else
      var last := ExtractPublicId(urls[|urls| - 1]);
      PublicIdsOf(urls[..|urls| - 1]) + (if last.Some? && last.value != "" then [last.value] else [])
  }

  /** Collecting over two runs of URLs is collecting over each, one after the other. */
  lemma {:induction false} PublicIdsOfAppend(a: seq<string>, b: seq<string>)
    ensures PublicIdsOf(a + b) == PublicIdsOf(a) + PublicIdsOf(b)
    decreases |b|
  {
    if b == [] {
      assert a + b == a;
    } else {
      var b' := b[..|b| - 1];
      assert (a + b)[..|a + b| - 1] == a + b';
      assert (a + b)[|a + b| - 1] == b[|b| - 1];
      PublicIdsOfAppend(a, b');
    }
  }

  /** Every collected id was extracted from one of the URLs. */
  lemma {:induction false} PublicIdsOfSound(urls: seq<string>, id: string)
    requires id in PublicIdsOf(urls)
    ensures exists k :: 0 <= k < |urls| && ExtractPublicId(urls[k]) == Some(id)
  {
    var init := urls[..|urls| - 1];
    if id in PublicIdsOf(init) {
      PublicIdsOfSound(init, id);
      var k :| 0 <= k < |init| && ExtractPublicId(init[k]) == Some(id);
      assert urls[k] == init[k];
    } else {
      assert ExtractPublicId(urls[|urls| - 1]) == Some(id);
    }
  }

  /** The inner loop: `newPublicIds.push(publicId)` for every truthy extracted id. */
  method CollectPublicIds(urls: seq<string>) returns (ids: seq<string>)
    ensures ids == PublicIdsOf(urls)
  {
    ids := [];
    var i := 0;
    while i < |urls|
      invariant 0 <= i <= |urls|
      invariant ids == PublicIdsOf(urls[..i])
    {
      var publicId := ExtractPublicId(urls[i]);
      assert urls[..i + 1][..i] == urls[..i];
      if publicId.Some? && publicId.value != "" {
        ids := ids + [publicId.value];
      }
      i := i + 1;
    }
    assert urls[..i] == urls;
  }

  /** A stored array field: absent, `null`, or an array. */
  datatype ArrayField = Missing | NullArray | Items(items: seq<string>)

  /** A stored product as the script sees it. */
  datatype LegacyProduct = LegacyProduct(
    id: string,
    name: string,
    imageUrls: ArrayField,
    cloudinaryPublicIds: ArrayField)

  /**
   * The script's query: `imageUrls` exists and is not an empty array (a `null`
   * one matches both conditions), and `cloudinaryPublicIds` is missing or an
   * empty array.
   */
  predicate Selected(p: LegacyProduct)
  {
    && !p.imageUrls.Missing? && p.imageUrls != Items([])
    && (p.cloudinaryPublicIds.Missing? || p.cloudinaryPublicIds == Items([]))
  }

  /** A selected product whose `imageUrls` is `null`: `for (const url of null)` throws. */
  predicate Throws(p: LegacyProduct)
  {
    Selected(p) && p.imageUrls.NullArray?
  }

  /** What the script leaves in place of a product it reaches. */
  function Migrated(p: LegacyProduct): (q: LegacyProduct)
    ensures q.id == p.id && q.name == p.name
    // updated exactly when selected with at least one id collected
    ensures q != p <==> Selected(p) && p.imageUrls.Items? && PublicIdsOf(p.imageUrls.items) != []
    ensures q != p ==> q.cloudinaryPublicIds == Items(PublicIdsOf(p.imageUrls.items)) && q.imageUrls.Missing?
  {
    if Selected(p) && p.imageUrls.Items? then
      var ids := PublicIdsOf(p.imageUrls.items);
      if |ids| > 0 then p.(cloudinaryPublicIds := Items(ids), imageUrls := Missing) else p
    else p
  }

  /** Running the script twice does what running it once does: a migrated product is no longer selected. */
  lemma MigrationIdempotent(p: LegacyProduct)
    ensures Migrated(Migrated(p)) == Migrated(p)
    ensures Migrated(p) != p ==> !Selected(Migrated(p))
  {
  }

  /** How many products, from the first, the run gets through before one throws. */
  function Reached(products: seq<LegacyProduct>): (n: nat)
    ensures n <= |products|
    ensures forall k :: 0 <= k < n ==> !Throws(products[k])
    ensures n < |products| ==> Throws(products[n])
  {
    if products == [] || Throws(products[0]) then 0
    else 1 + Reached(products[1..])
  }

  /** The products collection as the script sees it. */
  class LegacyStore {
    var products: seq<LegacyProduct>

    constructor (products: seq<LegacyProduct>)
      ensures this.products == products
    {
      this.products := products;
    }

    /**
     * `migrateImages`: for each selected product, in store order, collect the
     * ids of its URLs and, if there is at least one, set `cloudinaryPublicIds`
     * and unset `imageUrls` on that product. A `null` URL list throws, and the
     * catch ends the run: the products after it are left as they were.
     */
    method Migrate()
      modifies this
      ensures |products| == |old(products)|
      ensures forall k :: 0 <= k < Reached(old(products)) ==> products[k] == Migrated(old(products)[k])
      ensures forall k :: Reached(old(products)) <= k < |products| ==> products[k] == old(products)[k]
    {
      var i := 0;
      while i < |products|
        invariant 0 <= i <= |products| == |old(products)|
        invariant i <= Reached(old(products))
        invariant forall k :: 0 <= k < i ==> products[k] == Migrated(old(products)[k])
        invariant forall k :: i <= k < |products| ==> products[k] == old(products)[k]
      {
        var product := products[i];
        if Selected(product) {
          if product.imageUrls.NullArray? {
            break;
          }
          var newPublicIds := CollectPublicIds(product.imageUrls.items);
          if |newPublicIds| > 0 {
            products := products[i := product.(cloudinaryPublicIds := Items(newPublicIds), imageUrls := Missing)];
          }
        }
        i := i + 1;
      }
      assert i == Reached(old(products));
    }
  }
}
