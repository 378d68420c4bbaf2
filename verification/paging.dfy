/** Page arithmetic shared by the paginated listings: the number of pages
    and the slice of one page. */
module Paging {

  import opened Sequences

  /** `math.ceil(n / d)`. */
  function CeilDiv(n: nat, d: nat): (q: nat)
    requires d >= 1
    ensures q * d >= n && (q == 0 || (q - 1) * d < n)
    ensures q == 0 <==> n == 0
  {
    (n + d - 1) / d
  }

  /** Page `page` of `s` at `limit` rows a page: `s[(page-1)*limit : (page-1)*limit+limit]`. */
  function PageSlice<T>(s: seq<T>, page: nat, limit: nat): (r: seq<T>)
    requires page >= 1
    ensures |r| <= limit
    ensures forall i :: 0 <= i < |r| ==> (page - 1) * limit + i < |s| && r[i] == s[(page - 1) * limit + i]
    ensures var lo := (page - 1) * limit; r == s[Min(lo, |s|)..Min(lo + limit, |s|)]
  {
    Slice(s, (page - 1) * limit, (page - 1) * limit + limit)
  }

  /** A page after the last one is empty. */
  lemma PagePastEnd<T>(s: seq<T>, page: nat, limit: nat)
    requires page >= 1 && limit >= 1 && page > CeilDiv(|s|, limit)
    ensures PageSlice(s, page, limit) == []
  {
    var q := CeilDiv(|s|, limit);
    assert (page - 1) * limit >= q * limit;
  }

  /** Pages 1..k laid end to end. */
  function Pages<T>(s: seq<T>, limit: nat, k: nat): seq<T>
  {
    if k == 0 then [] else Pages(s, limit, k - 1) + PageSlice(s, k, limit)
  }

  lemma {:induction false} PagesPrefix<T>(s: seq<T>, limit: nat, k: nat)
    ensures Pages(s, limit, k) == s[..Min(k * limit, |s|)]
  {
    if k > 0 {
      PagesPrefix(s, limit, k - 1);
      PagesStep(s, limit, k);
    }
  }

  /** Adding page `k` to pages 1..k-1 extends the prefix by one page. */
  lemma PagesStep<T>(s: seq<T>, limit: nat, k: nat)
    requires k >= 1 && Pages(s, limit, k - 1) == s[..Min((k - 1) * limit, |s|)]
    ensures Pages(s, limit, k) == s[..Min(k * limit, |s|)]
  {
    var lo, hi := (k - 1) * limit, k * limit;
    NextPageStart(k, limit);
    PageBetween(s, k, limit, lo, hi);
    PrefixJoin(s, lo, hi);
  }

  /** Page `k` runs from `lo`, where it starts, to `hi`, where page `k + 1` starts. */
  lemma PageBetween<T>(s: seq<T>, k: nat, limit: nat, lo: nat, hi: nat)
    requires k >= 1 && lo == (k - 1) * limit && hi == lo + limit
    ensures PageSlice(s, k, limit) == s[Min(lo, |s|)..Min(hi, |s|)]
  {
  }

  lemma NextPageStart(k: nat, limit: nat)
    requires k >= 1
    ensures k * limit == (k - 1) * limit + limit
  {
  }

  lemma PrefixJoin<T>(s: seq<T>, lo: nat, hi: nat)
    requires lo <= hi
    ensures s[..Min(lo, |s|)] + s[Min(lo, |s|)..Min(hi, |s|)] == s[..Min(hi, |s|)]
  {
  }

  /** Pages 1 to `CeilDiv(|s|, limit)`, laid end to end, give back `s`. */
  lemma PagesCover<T>(s: seq<T>, limit: nat)
    requires limit >= 1
    ensures Pages(s, limit, CeilDiv(|s|, limit)) == s
  {
    PagesPrefix(s, limit, CeilDiv(|s|, limit));
  }
}
