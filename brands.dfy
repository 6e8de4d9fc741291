/**
 * Brand records as the brand files hold them, the two-pass scanner
 * `_scan_brands` (scripts/generate-descriptions.py:95-130) and the prompt
 * builder `_build_prompt` (:133-144).
 */
module Brands {
  import opened Wrappers
  import opened Text

  /**
   * One entry of a brand file. A missing JSON key is `None`; keys the
   * pipeline neither reads nor writes are not represented.
   */
  datatype BrandRecord = BrandRecord(
    slug: string,
    name: Option<string>,
    domain: Option<string>,
    categories: Option<seq<string>>,
    description: Option<string>)

  /** A brand file (`brands-*.json`): the records in file order. */
  type BrandFile = seq<BrandRecord>

  /** One entry of the scanner's output, with every field filled in. */
  datatype Brand = Brand(slug: string, name: string, domain: string, categories: seq<string>)

  datatype ScanError = NoBrandFiles

  /** The scanner's result: the brands needing a description and the number of files read. */
  datatype Scan = Scan(needs: seq<Brand>, fileCount: nat)

  /** `b.get("description", "").strip()` is truthy. */
  predicate HasDescription(b: BrandRecord) {
    !IsBlank(b.description.GetOr(""))
  }

  /** The scanner entry for a record: `name` defaults to the slug, `domain` to "", `categories` to []. */
  function Entry(b: BrandRecord): (e: Brand)
    ensures e.slug == b.slug
    ensures e.name == (if b.name.Some? then b.name.value else b.slug)
    ensures e.domain == (if b.domain.Some? then b.domain.value else "")
    ensures e.categories == (if b.categories.Some? then b.categories.value else [])
  {
    Brand(b.slug, b.name.GetOr(b.slug), b.domain.GetOr(""), b.categories.GetOr([]))
  }

  /** All records of the files, file after file. */
  function Flatten(files: seq<BrandFile>): seq<BrandRecord>
  {
    if files == [] then [] else Flatten(files[..|files| - 1]) + files[|files| - 1]
  }

  function RecordSlugs(s: seq<BrandRecord>): set<string> {
    set b | b in s :: b.slug
  }

  function Slugs(out: seq<Brand>): set<string> {
    set e | e in out :: e.slug
  }

  /** The first pass: slugs that carry a non-blank description in some record. */
  function DescribedSlugs(s: seq<BrandRecord>): set<string> {
    set b | b in s && HasDescription(b) :: b.slug
  }

  /**
   * The second pass over the records `s`: each record whose slug is neither
   * described nor already emitted is emitted, in order.
   */
  function Needed(s: seq<BrandRecord>, described: set<string>): seq<Brand>
  {
    if s == [] then []
    else
      var prior := Needed(s[..|s| - 1], described);
      var b := s[|s| - 1];
      if b.slug in Slugs(prior) || b.slug in described then prior else prior + [Entry(b)]
  }

  /** What `_scan_brands` returns for the records of all files. */
  function ScanSpec(s: seq<BrandRecord>): seq<Brand> {
    Needed(s, DescribedSlugs(s))
  }

  /** The position of the first record with the given slug. */
  function FirstIndex(s: seq<BrandRecord>, slug: string): (p: nat)
    requires slug in RecordSlugs(s)
    ensures p < |s| && s[p].slug == slug
  {
    if s[0].slug == slug then 0
    else
      assert slug in RecordSlugs(s[1..]) by {
        var b :| b in s && b.slug == slug;
        var i :| 0 <= i < |s| && s[i] == b;
        assert s[1..][i - 1] == b;
      }
      1 + FirstIndex(s[1..], slug)
  }

  /** A record is found in the flattened files exactly when some file holds it. */
  lemma {:induction false} FlattenMember(files: seq<BrandFile>, b: BrandRecord)
    ensures b in Flatten(files) <==> exists i | 0 <= i < |files| :: b in files[i]
  {
    if files != [] {
      var n := |files| - 1;
      FlattenMember(files[..n], b);
      if b in Flatten(files[..n]) {
        var i :| 0 <= i < n && b in files[..n][i];
        assert b in files[i];
      }
      if exists i | 0 <= i < |files| :: b in files[i] {
        var i :| 0 <= i < |files| && b in files[i];
        if i < n { assert b in files[..n][i]; }
      }
    }
  }

  /** The second pass emits each slug at most once and never a described one. */
  lemma {:induction false} NeededFresh(s: seq<BrandRecord>, described: set<string>)
    ensures forall k | 0 <= k < |Needed(s, described)| :: Needed(s, described)[k].slug !in described
    ensures forall k, l | 0 <= k < l < |Needed(s, described)| ::
              Needed(s, described)[k].slug != Needed(s, described)[l].slug
  {
    if s != [] {
      NeededFresh(s[..|s| - 1], described);
      var prior := Needed(s[..|s| - 1], described);
      var b := s[|s| - 1];
      if !(b.slug in Slugs(prior) || b.slug in described) {
        var out := prior + [Entry(b)];
        forall k | 0 <= k < |prior| ensures out[k].slug != b.slug {
          assert prior[k] in prior;
        }
      }
    }
  }

  /** Every slug of the input that is not described is emitted. */
  lemma {:induction false} NeededCovers(s: seq<BrandRecord>, described: set<string>)
    ensures forall p | 0 <= p < |s| && s[p].slug !in described :: s[p].slug in Slugs(Needed(s, described))
  {
    if s != [] {
      var n := |s| - 1;
      NeededCovers(s[..n], described);
      var prior := Needed(s[..n], described);
      assert Slugs(prior) <= Slugs(Needed(s, described));
      forall p | 0 <= p < |s| && s[p].slug !in described
        ensures s[p].slug in Slugs(Needed(s, described))
      {
        if p < n {
          assert s[..n][p] == s[p];
        } else if s[n].slug !in Slugs(prior) {
          assert Entry(s[n]) in Needed(s, described);
        }
      }
    }
  }

  /** Everything emitted comes from the input. */
  lemma {:induction false} NeededFromInput(s: seq<BrandRecord>, described: set<string>)
    ensures Slugs(Needed(s, described)) <= RecordSlugs(s)
  {
    if s != [] {
      var n := |s| - 1;
      NeededFromInput(s[..n], described);
      assert RecordSlugs(s[..n]) <= RecordSlugs(s) by {
        forall b | b in s[..n] ensures b in s { }
      }
      assert s[n] in s;
    }
  }

  /** No record before the first position carries the slug. */
  lemma {:induction false} FirstIndexMin(s: seq<BrandRecord>, slug: string, q: nat)
    requires q < |s| && s[q].slug == slug
    ensures slug in RecordSlugs(s) && FirstIndex(s, slug) <= q
  {
    assert s[q] in s;
    if s[0].slug != slug {
      assert s[1..][q - 1] == s[q];
      FirstIndexMin(s[1..], slug, q - 1);
    }
  }

  lemma FirstIndexOfPrefix(s: seq<BrandRecord>, n: nat, slug: string)
    requires n <= |s| && slug in RecordSlugs(s[..n])
    ensures slug in RecordSlugs(s)
    ensures FirstIndex(s, slug) == FirstIndex(s[..n], slug)
  {
    var p := FirstIndex(s[..n], slug);
    assert s[..n][p] == s[p];
    FirstIndexMin(s, slug, p);
    var p' := FirstIndex(s, slug);
    assert s[..n][p'] == s[p'];
    FirstIndexMin(s[..n], slug, p');
  }

  /**
   * Each entry of `out` is built from the first record of `s` with its slug,
   * and the entries appear in the order of those first occurrences.
   */
  ghost predicate InFirstOccurrenceOrder(s: seq<BrandRecord>, out: seq<Brand>) {
    BuiltFromFirst(s, out) && FirstIndicesIncrease(s, out)
  }

  ghost predicate BuiltFromFirst(s: seq<BrandRecord>, out: seq<Brand>) {
    forall k | 0 <= k < |out| ::
      out[k].slug in RecordSlugs(s) && out[k] == Entry(s[FirstIndex(s, out[k].slug)])
  }

  ghost predicate FirstIndicesIncrease(s: seq<BrandRecord>, out: seq<Brand>) {
    forall k, l | 0 <= k < l < |out| ::
      out[k].slug in RecordSlugs(s) && out[l].slug in RecordSlugs(s) &&
      FirstIndex(s, out[k].slug) < FirstIndex(s, out[l].slug)
  }

  lemma {:induction false} NeededFirstOccurrence(s: seq<BrandRecord>, described: set<string>)
    ensures InFirstOccurrenceOrder(s, Needed(s, described))
  {
    if s != [] {
      var n := |s| - 1;
      var prior := Needed(s[..n], described);
      NeededFirstOccurrence(s[..n], described);
      OrderExtends(s, n, prior);
      var b := s[n];
      if !(b.slug in Slugs(prior) || b.slug in described) {
        NeededCovers(s[..n], described);
        FirstIndexAtEnd(s, n);
        OrderAppend(s, prior, Entry(b));
      }
    }
  }

  /** Entries ordered by first occurrence in a prefix stay so in the whole sequence, all before the prefix's end. */
  lemma OrderExtends(s: seq<BrandRecord>, n: nat, out: seq<Brand>)
    requires n <= |s| && InFirstOccurrenceOrder(s[..n], out)
    ensures InFirstOccurrenceOrder(s, out)
    ensures forall k | 0 <= k < |out| :: out[k].slug in RecordSlugs(s) && FirstIndex(s, out[k].slug) < n
  {
    forall k | 0 <= k < |out|
      ensures out[k].slug in RecordSlugs(s) && FirstIndex(s, out[k].slug) == FirstIndex(s[..n], out[k].slug) < n
    {
      FirstIndexOfPrefix(s, n, out[k].slug);
    }
  }

  /** A slug absent from the prefix first occurs at the last position. */
  lemma FirstIndexAtEnd(s: seq<BrandRecord>, n: nat)
    requires n == |s| - 1 && s[n].slug !in RecordSlugs(s[..n])
    ensures s[n].slug in RecordSlugs(s) && FirstIndex(s, s[n].slug) == n
  {
    FirstIndexMin(s, s[n].slug, n);
  }

  /** Appending the entry of a slug that first occurs after all others keeps the order. */
  lemma OrderAppend(s: seq<BrandRecord>, out: seq<Brand>, e: Brand)
    requires s != [] && InFirstOccurrenceOrder(s, out)
    requires forall k | 0 <= k < |out| :: out[k].slug in RecordSlugs(s) && FirstIndex(s, out[k].slug) < |s| - 1
    requires e == Entry(s[|s| - 1]) && e.slug in RecordSlugs(s) && FirstIndex(s, e.slug) == |s| - 1
    ensures InFirstOccurrenceOrder(s, out + [e])
  {
    AppendBuilt(s, out, e);
    AppendIncrease(s, out, e, |s| - 1);
  }

  lemma AppendBuilt(s: seq<BrandRecord>, out: seq<Brand>, e: Brand)
    requires BuiltFromFirst(s, out)
    requires e.slug in RecordSlugs(s) && e == Entry(s[FirstIndex(s, e.slug)])
    ensures BuiltFromFirst(s, out + [e])
  {
    var r := out + [e];
    forall k | 0 <= k < |r|
      ensures r[k].slug in RecordSlugs(s) && r[k] == Entry(s[FirstIndex(s, r[k].slug)])
    {
      if k < |out| { assert r[k] == out[k]; } else { assert r[k] == e; }
    }
  }

  lemma AppendIncrease(s: seq<BrandRecord>, out: seq<Brand>, e: Brand, bound: nat)
    requires FirstIndicesIncrease(s, out)
    requires forall k | 0 <= k < |out| :: out[k].slug in RecordSlugs(s) && FirstIndex(s, out[k].slug) < bound
    requires e.slug in RecordSlugs(s) && FirstIndex(s, e.slug) == bound
    ensures FirstIndicesIncrease(s, out + [e])
  {
    var r := out + [e];
    var m := |out|;
    forall k, l | 0 <= k < l < |r|
      ensures r[k].slug in RecordSlugs(s) && r[l].slug in RecordSlugs(s)
      ensures FirstIndex(s, r[k].slug) < FirstIndex(s, r[l].slug)
    {
      assert r[k] == out[k];
      if l < m { assert r[l] == out[l]; } else { assert r[l].slug == e.slug; }
    }
  }

  /** The scanner only emits slugs with no description anywhere, and emits each of those. */
  lemma ScanSuppression(s: seq<BrandRecord>)
    ensures forall k | 0 <= k < |ScanSpec(s)| :: ScanSpec(s)[k].slug !in DescribedSlugs(s)
    ensures forall b | b in s :: b.slug in Slugs(ScanSpec(s)) <==> b.slug !in DescribedSlugs(s)
  {
    NeededFresh(s, DescribedSlugs(s));
    NeededCovers(s, DescribedSlugs(s));
    forall b | b in s ensures b.slug in Slugs(ScanSpec(s)) <==> b.slug !in DescribedSlugs(s) {
      var p :| 0 <= p < |s| && s[p] == b;
      if b.slug in Slugs(ScanSpec(s)) {
        var e :| e in ScanSpec(s) && e.slug == b.slug;
        var k :| 0 <= k < |ScanSpec(s)| && ScanSpec(s)[k] == e;
      }
    }
  }

  lemma NeededSnoc(prefix: seq<BrandRecord>, b: BrandRecord, described: set<string>)
    ensures Needed(prefix + [b], described)
         == if b.slug in Slugs(Needed(prefix, described)) || b.slug in described
            then Needed(prefix, described)
            else Needed(prefix, described) + [Entry(b)]
  {
    assert (prefix + [b])[..|prefix|] == prefix;
  }

  lemma NeededStep(pre: seq<BrandRecord>, file: BrandFile, j: nat, described: set<string>)
    requires j < |file|
    ensures Needed(pre + file[..j + 1], described)
         == if file[j].slug in Slugs(Needed(pre + file[..j], described)) || file[j].slug in described
            then Needed(pre + file[..j], described)
            else Needed(pre + file[..j], described) + [Entry(file[j])]
  {
    assert pre + file[..j + 1] == pre + file[..j] + [file[j]];
    NeededSnoc(pre + file[..j], file[j], described);
  }

  lemma SlugsSnoc(out: seq<Brand>, e: Brand)
    ensures Slugs(out + [e]) == Slugs(out) + {e.slug}
  {
  }

  /** The first pass of `_scan_brands`: the slugs described in some file. */
  method CollectDescribed(files: seq<BrandFile>) returns (hasDesc: set<string>)
    ensures hasDesc == DescribedSlugs(Flatten(files))
  {
    hasDesc := {};
    var i := 0;
    while i < |files|
      invariant 0 <= i <= |files|
      invariant hasDesc == DescribedSlugs(Flatten(files[..i]))
    {
      var j := 0;
      assert Flatten(files[..i]) + files[i][..0] == Flatten(files[..i]);
      while j < |files[i]|
        invariant 0 <= j <= |files[i]|
        invariant hasDesc == DescribedSlugs(Flatten(files[..i]) + files[i][..j])
      {
        var b := files[i][j];
        assert Flatten(files[..i]) + files[i][..j + 1] == Flatten(files[..i]) + files[i][..j] + [b];
        if HasDescription(b) {
          hasDesc := hasDesc + {b.slug};
        }
        j := j + 1;
      }
      assert files[i][..j] == files[i];
      assert files[..i + 1][..i] == files[..i];
      i := i + 1;
    }
    assert files[..i] == files;
  }

  /** The second pass over one file, continuing from the entries emitted for the records `pre` before it. */
  method CollectNeededInFile(file: BrandFile, hasDesc: set<string>, ghost pre: seq<BrandRecord>,
                             needs0: seq<Brand>, seen0: set<string>)
    returns (needs: seq<Brand>, seen: set<string>)
    requires needs0 == Needed(pre, hasDesc) && seen0 == Slugs(needs0)
    ensures needs == Needed(pre + file, hasDesc) && seen == Slugs(needs)
  {
    needs, seen := needs0, seen0;
    var j := 0;
    assert pre + file[..0] == pre;
    while j < |file|
      invariant 0 <= j <= |file|
      invariant needs == Needed(pre + file[..j], hasDesc)
      invariant seen == Slugs(needs)
    {
      var b := file[j];
      NeededStep(pre, file, j, hasDesc);
      if !(b.slug in seen || b.slug in hasDesc) {
        SlugsSnoc(needs, Entry(b));
        seen := seen + {b.slug};
        needs := needs + [Entry(b)];
      }
      j := j + 1;
    }
    assert file[..j] == file;
  }

  /** The second pass of `_scan_brands`: first occurrences of the slugs not in `hasDesc`. */
  method CollectNeeded(files: seq<BrandFile>, hasDesc: set<string>) returns (needs: seq<Brand>)
    ensures needs == Needed(Flatten(files), hasDesc)
  {
    var seen: set<string> := {};
    needs := [];
    var i := 0;
    while i < |files|
      invariant 0 <= i <= |files|
      invariant needs == Needed(Flatten(files[..i]), hasDesc)
      invariant seen == Slugs(needs)
    {
      needs, seen := CollectNeededInFile(files[i], hasDesc, Flatten(files[..i]), needs, seen);
      assert files[..i + 1][..i] == files[..i];
      i := i + 1;
    }
    assert files[..i] == files;
  }

  /**
   * `_scan_brands`: fails when there are no brand files; otherwise makes the
   * two passes over the files (given in sorted path order) and returns the
   * brands needing a description and the number of files.
   */
  method ScanBrands(files: seq<BrandFile>) returns (r: Result<Scan, ScanError>)
    ensures r.Failure? <==> files == []
    ensures r.Success? ==> r.value.fileCount == |files|
    ensures r.Success? ==> r.value.needs == ScanSpec(Flatten(files))
    ensures r.Success? ==> forall k | 0 <= k < |r.value.needs| ::
              r.value.needs[k].slug !in DescribedSlugs(Flatten(files))
    ensures r.Success? ==> forall k, l | 0 <= k < l < |r.value.needs| ::
              r.value.needs[k].slug != r.value.needs[l].slug
    ensures r.Success? ==> forall b | b in Flatten(files) ::
              b.slug in Slugs(r.value.needs) <==> b.slug !in DescribedSlugs(Flatten(files))
    ensures r.Success? ==> InFirstOccurrenceOrder(Flatten(files), r.value.needs)
  {
    if files == [] {
      return Failure(NoBrandFiles);
    }
    var hasDesc := CollectDescribed(files);
    var needs := CollectNeeded(files, hasDesc);
    ScanSuppression(Flatten(files));
    NeededFresh(Flatten(files), hasDesc);
    NeededFirstOccurrence(Flatten(files), hasDesc);
    return Success(Scan(needs, |files|));
  }

  /** `cats[0] if cats else "retail"` followed by `" and " + cats[1]` when there are two or more. */
  function CategoryPhrase(cats: seq<string>): string {
    (if |cats| > 0 then cats[0] else "retail") + (if |cats| > 1 then " and " + cats[1] else "")
  }

  const Instruction: string :=
    "Write exactly 2 sentences: what they sell, and what makes them notable "
    + "or who they're for. Reply with only the 2 sentences, no preamble."

  /** `_build_prompt`. */
  function BuildPrompt(b: Brand): (r: string)
    ensures |r| >= |b.name| && r[..|b.name|] == b.name
    ensures |r| >= |Instruction| && r[|r| - |Instruction|..] == Instruction
    ensures |b.categories| >= 2 ==>
              r == b.name + " (" + b.domain + ") is a " + b.categories[0] + " and " + b.categories[1] + " brand. " + Instruction
  {
    b.name + " (" + b.domain + ") is a " + CategoryPhrase(b.categories) + " brand. " + Instruction
  }

  /** Only the first two categories reach the prompt, and no category reads as "retail". */
  lemma PromptCategories(b: Brand)
    ensures |b.categories| > 2 ==> BuildPrompt(b) == BuildPrompt(b.(categories := b.categories[..2]))
    ensures b.categories == [] ==> BuildPrompt(b) == BuildPrompt(b.(categories := ["retail"]))
    ensures |b.categories| == 1 ==> BuildPrompt(b) == b.name + " (" + b.domain + ") is a " + b.categories[0] + " brand. " + Instruction
  {
  }
}
