/**
 * The billing response and the premium-request count taken from it
 * (src/index.ts:11-29, 97-117). The HTTP exchange itself is not modelled:
 * its outcome arrives as `Some(usageItems)` for a successful, well-formed
 * response and `None` for a non-ok status, a network error or a body that
 * cannot be read.
 */
module Usage {
  import opened Wrappers
  import Quota

  /** One entry of `usageItems` in the billing response. */
  datatype UsageItem = UsageItem(
    product: string,
    sku: string,
    model: Option<string>,
    unitType: string,
    pricePerUnit: real,
    grossQuantity: real,
    grossAmount: real,
    discountQuantity: real,
    discountAmount: real,
    netQuantity: real,
    netAmount: real)

  /** What a successful fetch hands to the event handler. */
  datatype Usage = Usage(used: real, quota: int) {
    /** A count no billing response goes below, against a positive quota. */
    predicate Sane() {
      used >= 0.0 && quota > 0
    }
  }

  // ------------------------------------------------------------- substrings

  predicate StartsWith(s: string, prefix: string) {
    |prefix| <= |s| && s[..|prefix|] == prefix
  }

  /** `pattern` occurs in `s` starting at index `i`. */
  predicate OccursAt(s: string, pattern: string, i: int) {
    0 <= i && i + |pattern| <= |s| && s[i..i + |pattern|] == pattern
  }

  /** `s.includes(pattern)`. */
  predicate Includes(s: string, pattern: string)
    decreases |s|
  {
    StartsWith(s, pattern) || (s != [] && Includes(s[1..], pattern))
  }

  /** `Includes` holds exactly when the pattern occurs at some position. */
  lemma {:induction false} IncludesIff(s: string, pattern: string)
    ensures Includes(s, pattern) <==> exists i :: OccursAt(s, pattern, i)
    decreases |s|
  {
    if StartsWith(s, pattern) {
      assert OccursAt(s, pattern, 0);
    } else if s == [] {
      assert forall i :: !OccursAt(s, pattern, i);
    } else {
      IncludesIff(s[1..], pattern);
      if exists i :: OccursAt(s, pattern, i) {
        var i :| OccursAt(s, pattern, i);
        assert i != 0;
        assert s[1..][i - 1..i - 1 + |pattern|] == s[i..i + |pattern|];
        assert OccursAt(s[1..], pattern, i - 1);
      }
      if Includes(s[1..], pattern) {
        var j :| OccursAt(s[1..], pattern, j);
        assert s[j + 1..j + 1 + |pattern|] == s[1..][j..j + |pattern|];
        assert OccursAt(s, pattern, j + 1);
      }
    }
  }

  // ------------------------------------------------------- filter and reduce

  const PremiumProduct: string := "Copilot"
  const PremiumSku: string := "Premium Request"

  /** The filter of src/index.ts:107-110. */
  predicate IsPremiumRequest(item: UsageItem): (b: bool)
    ensures b <==> item.product == PremiumProduct && exists i :: OccursAt(item.sku, PremiumSku, i)
  {
    IncludesIff(item.sku, PremiumSku);
    item.product == PremiumProduct && Includes(item.sku, PremiumSku)
  }

  /** `usageItems.filter(IsPremiumRequest)`, in order. */
  function PremiumItems(items: seq<UsageItem>): (r: seq<UsageItem>)
    ensures |r| <= |items|
    ensures forall x :: x in r <==> x in items && IsPremiumRequest(x)
  {
    if items == [] then []
    else (if IsPremiumRequest(items[0]) then [items[0]] else []) + PremiumItems(items[1..])
  }

  /** `reduce((sum, item) => sum + item.grossQuantity, 0)`: a left fold. */
  function TotalGross(items: seq<UsageItem>): (r: real)
    ensures (forall x | x in items :: x.grossQuantity >= 0.0) ==> r >= 0.0
  {
    if items == [] then 0.0
    else TotalGross(items[..|items| - 1]) + items[|items| - 1].grossQuantity
  }

  /** The premium requests used this month (src/index.ts:106-111). */
  function PremiumUsed(items: seq<UsageItem>): (r: real)
    ensures (forall x | x in items :: x.grossQuantity >= 0.0) ==> r >= 0.0
    ensures (forall x | x in items :: !IsPremiumRequest(x)) ==> r == 0.0
  {
    var premium := PremiumItems(items);
    assert (forall x | x in items :: !IsPremiumRequest(x)) ==> premium == [] by {
      if premium != [] {
        assert premium[0] in premium;
      }
    }
    TotalGross(premium)
  }

  /**
   * Reference definition: `grossQuantity` summed over exactly the premium
   * items, element by element.
   */
  function PremiumSum(items: seq<UsageItem>): (r: real)
    ensures (forall x | x in items :: x.grossQuantity >= 0.0) ==> r >= 0.0
    ensures (forall x | x in items :: !IsPremiumRequest(x)) ==> r == 0.0
  {
    if items == [] then 0.0
    else (if IsPremiumRequest(items[0]) then items[0].grossQuantity else 0.0) + PremiumSum(items[1..])
  }

  lemma {:induction false} TotalGrossAppend(a: seq<UsageItem>, b: seq<UsageItem>)
    ensures TotalGross(a + b) == TotalGross(a) + TotalGross(b)
    decreases |b|
  {
    if b != [] {
      assert (a + b)[..|a + b| - 1] == a + b[..|b| - 1];
      TotalGrossAppend(a, b[..|b| - 1]);
    } else {
      assert a + b == a;
    }
  }

  lemma {:induction false} PremiumItemsAppend(a: seq<UsageItem>, b: seq<UsageItem>)
    ensures PremiumItems(a + b) == PremiumItems(a) + PremiumItems(b)
    decreases |a|
  {
    if a == [] {
      assert a + b == b;
    } else {
      assert (a + b)[1..] == a[1..] + b;
      PremiumItemsAppend(a[1..], b);
    }
  }

  /** The filter-then-reduce of the source computes the reference sum. */
  lemma {:induction false} PremiumUsedIsPremiumSum(items: seq<UsageItem>)
    ensures PremiumUsed(items) == PremiumSum(items)
  {
    if items != [] {
      var head := if IsPremiumRequest(items[0]) then [items[0]] else [];
      TotalGrossAppend(head, PremiumItems(items[1..]));
      assert TotalGross(head) == if IsPremiumRequest(items[0]) then items[0].grossQuantity else 0.0 by {
        if head != [] {
          assert head[..0] == [];
        }
      }
      PremiumUsedIsPremiumSum(items[1..]);
    }
  }

  /** The count over two halves of a list is the sum of their counts. */
  lemma {:induction false} PremiumUsedAppend(a: seq<UsageItem>, b: seq<UsageItem>)
    ensures PremiumUsed(a + b) == PremiumUsed(a) + PremiumUsed(b)
  {
    PremiumItemsAppend(a, b);
    TotalGrossAppend(PremiumItems(a), PremiumItems(b));
  }

  /**
   * An item that is not a Copilot premium request can be inserted anywhere
   * (or removed) without changing the count.
   */
  lemma {:induction false} NonPremiumIrrelevant(a: seq<UsageItem>, x: UsageItem, b: seq<UsageItem>)
    requires !IsPremiumRequest(x)
    ensures PremiumUsed(a + [x] + b) == PremiumUsed(a + b)
  {
    PremiumItemsAppend(a + [x], b);
    PremiumItemsAppend(a, [x]);
    PremiumItemsAppend(a, b);
    assert PremiumItems([x]) == [];
    assert PremiumItems(a) + [] == PremiumItems(a);
  }

  /** A premium item adds exactly its gross quantity, wherever it stands. */
  lemma {:induction false} PremiumItemCounts(a: seq<UsageItem>, x: UsageItem, b: seq<UsageItem>)
    requires IsPremiumRequest(x)
    ensures PremiumUsed(a + [x] + b) == PremiumUsed(a + b) + x.grossQuantity
  {
    var pa, pb := PremiumItems(a), PremiumItems(b);
    PremiumItemsAppend(a + [x], b);
    PremiumItemsAppend(a, [x]);
    PremiumItemsAppend(a, b);
    assert PremiumItems([x]) == [x];
    TotalGrossAppend(pa + [x], pb);
    assert (pa + [x])[..|pa|] == pa;
    TotalGrossAppend(pa, pb);
  }

  /**
   * `fetchCopilotUsage` once the response is in: no usage on a failed
   * exchange; otherwise the premium count against the configured quota.
   */
  function FetchOutcome(response: Option<seq<UsageItem>>, quotaEnv: Option<string>): (r: Option<Usage>)
    ensures r.Some? <==> response.Some?
    ensures r.Some? ==> r.value.quota == Quota.GetQuota(quotaEnv) && r.value.used == PremiumSum(response.value)
    ensures r.Some? ==> r.value.quota > 0
    ensures r.Some? && (forall x | x in response.value :: x.grossQuantity >= 0.0) ==> r.value.Sane()
  {
    match response
    case None => None
    case Some(items) =>
      PremiumUsedIsPremiumSum(items);
      Some(Usage(PremiumUsed(items), Quota.GetQuota(quotaEnv)))
  }
}
