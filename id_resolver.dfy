/**
 * Resolution of a category, account or tag from an id or a name (utils/idResolver.js): a
 * fixed chain of matching rules tried over the whole list, the first rule that matches any
 * item deciding, and within a rule the first matching item in list order.
 */
module IdResolver {
  import opened Wrappers
  import opened Strings
  import opened Js
  import opened Lists

  /** The string properties an item or an input object may carry (`_id` is `dbId`). */
  datatype Item = Item(id: Option<string>, dbId: Option<string>, name: Option<string>,
                       code: Option<string>, slug: Option<string>)

  /** What the caller passes as `input`: nothing (null or undefined), a string, or an object. */
  datatype Query = Absent | Text(s: string) | Object(fields: Item)

  /** Which alias table applies. */
  datatype Kind = Categories | Accounts | Tags

  const CategoryAliases: map<string, string> := map[
    "housing" := "住房", "dining" := "餐饮", "food" := "餐饮", "transport" := "交通",
    "transportation" := "交通", "shopping" := "购物", "entertainment" := "娱乐", "medical" := "医疗",
    "health" := "医疗", "education" := "教育", "telecom" := "通讯", "communication" := "通讯",
    "transfer" := "转账", "salary" := "工资", "bonus" := "奖金", "refund" := "退款",
    "investment" := "投资收益"]

  const AccountAliases: map<string, string> := map[
    "cash" := "现金", "alipay" := "支付宝", "wechatpay" := "微信钱包", "wechat" := "微信钱包",
    "wallet" := "钱包", "bank" := "银行", "cmb" := "招商银行", "bank_cmb" := "招商银行",
    "icbc" := "工商银行", "bank_icbc" := "工商银行", "abc" := "农业银行", "bank_abc" := "农业银行",
    "ccb" := "建设银行", "bank_ccb" := "建设银行", "boc" := "中国银行", "bank_boc" := "中国银行",
    "psbc" := "邮储银行", "bank_psbc" := "邮储银行", "spdb" := "浦发银行", "bank_spdb" := "浦发银行",
    "cgb" := "广发银行", "bank_cgb" := "广发银行", "cecb" := "中信银行", "bank_cecb" := "中信银行",
    "bank_alipay" := "支付宝", "bank_wechat" := "微信钱包", "bank_cash" := "现金"]

  const TagAliases: map<string, string> := map[
    "essential" := "必需品", "fun" := "娱乐", "invest" := "投资", "gift" := "礼品"]

  function Aliases(kind: Kind): map<string, string>
  {
    match kind
    case Categories => CategoryAliases
    case Accounts => AccountAliases
    case Tags => TagAliases
  }

  // ---------------------------------------------------------------- normalisation

  /** The characters the pattern `[\s_\-]+` removes. */
  predicate Separator(c: char) { IsWhitespace(c) || c == '_' || c == '-' }

  /** The string without its separator characters, the rest in order. */
  function Squeeze(s: string): (r: string)
    ensures |r| <= |s|
    ensures forall i :: 0 <= i < |r| ==> !Separator(r[i]) && r[i] in s
  {
    if |s| == 0 then ""
    else
      var rest := Squeeze(s[..|s| - 1]);
      assert forall c :: c in s[..|s| - 1] ==> c in s;
      if Separator(s[|s| - 1]) then rest else rest + [s[|s| - 1]]
  }

  lemma {:induction false} SqueezeClean(s: string)
    requires forall i :: 0 <= i < |s| ==> !Separator(s[i])
    ensures Squeeze(s) == s
  {
    if |s| > 0 {
      SqueezeClean(s[..|s| - 1]);
    }
  }

  /** `normalize`: `String(s || '')`, trimmed, lower-cased, with every separator removed. */
  function Normalize(o: Option<string>): (r: string)
  {
    var s := if Present(o) then o.value else "";
    Squeeze(Lower(Strip(s)))
  }

  /** A normalised string holds no separator and no upper-case letter. */
  lemma NormalizeChars(o: Option<string>)
    ensures forall i :: 0 <= i < |Normalize(o)| ==> !Separator(Normalize(o)[i]) && !IsUpperAscii(Normalize(o)[i])
  {
    var s := if Present(o) then o.value else "";
    var l := Lower(Strip(s));
    forall i | 0 <= i < |Squeeze(l)| ensures !IsUpperAscii(Squeeze(l)[i]) {
      var c := Squeeze(l)[i];
      assert c in l;
      var k :| 0 <= k < |l| && l[k] == c;
    }
  }

  /** Normalising twice gives what normalising once gives. */
  lemma NormalizeIdempotent(o: Option<string>)
    ensures Normalize(Some(Normalize(o))) == Normalize(o)
  {
    var n := Normalize(o);
    NormalizeChars(o);
    if n != "" {
      var t := Strip(n);
      assert TrimEnd(n) == n && TrimStart(n) == n by {
        assert !IsWhitespace(n[|n| - 1]) && !IsWhitespace(n[0]);
      }
      assert Lower(n) == n;
      SqueezeClean(n);
    }
  }

  /** `looseEqual`: both sides non-empty once normalised, and equal or one containing the other. */
  predicate LooseEqual(a: Option<string>, b: Option<string>)
  {
    var x, y := Normalize(a), Normalize(b);
    x != "" && y != "" && (x == y || Contains(x, y) || Contains(y, x))
  }

  /** Loose equality ignores the order of its arguments and never holds for an empty side. */
  lemma LooseEqualSymmetric(a: Option<string>, b: Option<string>)
    ensures LooseEqual(a, b) <==> LooseEqual(b, a)
    ensures Normalize(a) == "" ==> !LooseEqual(a, b) && !LooseEqual(b, a)
  {
  }

  /** Any non-empty normalised text matches itself loosely, whatever its case or separators. */
  lemma LooseEqualReflexive(a: Option<string>, b: Option<string>)
    requires Normalize(a) == Normalize(b) != ""
    ensures LooseEqual(a, b)
  {
  }

  /** An alias key holding `_` or `-` is never looked up: the key looked up is normalised. */
  lemma SeparatedAliasKeysUnused(val: Option<string>, key: string)
    requires '_' in key || '-' in key
    ensures Normalize(val) != key
  {
    NormalizeChars(val);
  }

  // ---------------------------------------------------------------- the matching rules

  /** The value compared with the items: the string itself, or an object's first truthy identifying property. */
  function Value(q: Query): Option<string>
  {
    match q
    case Absent => None
    case Text(s) => Some(s)
    case Object(f) => Or(Or(Or(Or(f.id, f.dbId), f.name), f.code), f.slug)
  }

  /** Rule 1: `String(it.id)` or `String(it._id)` equals `String(val)`. */
  predicate IdMatch(it: Item, val: Option<string>)
  {
    Show(it.id) == Show(val) || Show(it.dbId) == Show(val)
  }

  /** Rule 2 (only for a string value): a truthy code or slug equal to it. */
  predicate CodeMatch(it: Item, val: string)
  {
    (Present(it.code) && it.code.value == val) || (Present(it.slug) && it.slug.value == val)
  }

  /** Rule 3: a truthy name equal to `String(val)`. */
  predicate NameMatch(it: Item, val: Option<string>)
  {
    Present(it.name) && it.name.value == Show(val)
  }

  /** The standard name the alias table gives for the normalised value, when it gives a truthy one. */
  function AliasTarget(kind: Kind, val: Option<string>): (r: Option<string>)
    ensures r.Some? ==> Normalize(val) in Aliases(kind) && r.value == Aliases(kind)[Normalize(val)] && r.value != ""
  {
    var key := Normalize(val);
    if key in Aliases(kind) && Aliases(kind)[key] != "" then Some(Aliases(kind)[key]) else None
  }

  /** Rule 4: a truthy name equal, once normalised, to the alias target. */
  predicate AliasMatch(it: Item, target: Option<string>)
  {
    target.Some? && Present(it.name) && Normalize(it.name) == Normalize(target)
  }

  /** Rule 5: any identifying property loosely equal to the value. */
  predicate LooseMatch(it: Item, val: Option<string>)
  {
    LooseEqual(it.id, val) || LooseEqual(it.dbId, val) || LooseEqual(it.name, val)
    || LooseEqual(it.code, val) || LooseEqual(it.slug, val)
  }

  /** The five rules in the order they are tried; rule 2 needs a string value and rule 4 an alias target. */
  function Rules(val: Option<string>, kind: Kind): (rules: seq<Item -> bool>)
    ensures |rules| == 5
  {
    var target := AliasTarget(kind, val);
    [it => IdMatch(it, val),
     it => val.Some? && CodeMatch(it, val.value),
     it => NameMatch(it, val),
     it => AliasMatch(it, target),
     it => LooseMatch(it, val)]
  }

  /** The position of the first item satisfying the first rule any item satisfies. */
  function FirstByRules(list: seq<Item>, rules: seq<Item -> bool>): (r: Option<nat>)
    ensures r.Some? ==> r.value < |list|
  {
    if |rules| == 0 then None
    else
      var hit := FindFirst(list, rules[0]);
      if hit.Some? then hit else FirstByRules(list, rules[1..])
  }

  /** The index of the first rule an item satisfies, `|rules|` when it satisfies none. */
  function Rank(it: Item, rules: seq<Item -> bool>): (n: nat)
    ensures n <= |rules|
    ensures forall k :: 0 <= k < n ==> !rules[k](it)
    ensures n < |rules| ==> rules[n](it)
  {
    if |rules| == 0 then 0
    else if rules[0](it) then 0
    else 1 + Rank(it, rules[1..])
  }

  /**
   * Trying the rules in turn picks an item of the lowest rank in the list, and the first of
   * that rank; nothing is found exactly when no item satisfies any rule.
   */
  lemma {:induction false} FirstByRulesSpec(list: seq<Item>, rules: seq<Item -> bool>)
    ensures var r := FirstByRules(list, rules);
      r.Some? ==> (Rank(list[r.value], rules) < |rules|
        && (forall j :: 0 <= j < |list| ==> Rank(list[r.value], rules) <= Rank(list[j], rules))
        && (forall j :: 0 <= j < r.value ==> Rank(list[r.value], rules) < Rank(list[j], rules)))
    ensures FirstByRules(list, rules).None? <==> forall j :: 0 <= j < |list| ==> Rank(list[j], rules) == |rules|
  {
    if |rules| > 0 {
      var hit := FindFirst(list, rules[0]);
      if hit.None? {
        FirstByRulesSpec(list, rules[1..]);
        forall j | 0 <= j < |list| ensures Rank(list[j], rules) == 1 + Rank(list[j], rules[1..]) {
          assert !rules[0](list[j]);
        }
      } else {
        forall j | 0 <= j < |list| ensures Rank(list[j], rules) >= 0 {
        }
      }
    }
  }

  /** The position `byIdOrName` returns the item of: the rules tried in turn, each over the whole list. */
  function Lookup(list: seq<Item>, val: Option<string>, kind: Kind): (r: Option<nat>)
    ensures r.Some? ==> r.value < |list|
  {
    FirstByRules(list, Rules(val, kind))
  }

  /**
   * `byIdOrName`: nothing for a list that is not an array or a falsy input, otherwise the
   * item `Lookup` finds.
   */
  function ByIdOrName(list: Option<seq<Item>>, input: Query, kind: Kind): (r: Option<Item>)
    ensures r.Some? ==> list.Some? && r.value in list.value
    ensures list.None? || input.Absent? || input == Text("") ==> r.None?
  {
    if list.None? || input.Absent? || input == Text("") then None
    else
      match Lookup(list.value, Value(input), kind)
      case None => None
      case Some(i) => Some(list.value[i])
  }

  /** An item whose id is the input string is found, before any item matching only by name or alias. */
  lemma ExactIdWins(list: seq<Item>, s: string, kind: Kind, i: nat)
    requires s != "" && i < |list| && list[i].id == Some(s)
    ensures ByIdOrName(Some(list), Text(s), kind).Some?
    ensures IdMatch(ByIdOrName(Some(list), Text(s), kind).value, Some(s))
  {
    var rules := Rules(Some(s), kind);
    FirstByRulesSpec(list, rules);
    assert rules[0](list[i]);
    assert Rank(list[i], rules) == 0;
  }

  // ---------------------------------------------------------------- tags

  /** What `resolveTags` is given: a falsy value, one id or name, or an array of them. */
  datatype TagArg = Falsy | One(q: Query) | Many(qs: seq<Query>)

  /** `(t._id || t.id)`, the key under which `resolveTags` treats two tags as the same. */
  function TagKey(t: Item): Option<string> { Or(t.dbId, t.id) }

  function Queries(arg: TagArg): seq<Query>
  {
    match arg
    case Falsy => []
    case One(q) => [q]
    case Many(qs) => qs
  }

  /** Whether a tag with the same key has already been collected. */
  predicate KeyTaken(result: seq<Item>, t: Item)
  {
    exists k :: 0 <= k < |result| && TagKey(result[k]) == TagKey(t)
  }

  /** The tags collected after the first `n` queries: each hit not already present by key is appended. */
  function CollectTags(allTags: seq<Item>, qs: seq<Query>): (r: seq<Item>)
  {
    if |qs| == 0 then []
    else
      var acc := CollectTags(allTags, qs[..|qs| - 1]);
      var hit := ByIdOrName(Some(allTags), qs[|qs| - 1], Tags);
      if hit.Some? && !KeyTaken(acc, hit.value) then acc + [hit.value] else acc
  }

  /** Every collected tag comes from the list and no two collected tags share a key. */
  lemma {:induction false} CollectTagsSpec(allTags: seq<Item>, qs: seq<Query>)
    ensures forall k :: 0 <= k < |CollectTags(allTags, qs)| ==> CollectTags(allTags, qs)[k] in allTags
    ensures forall a, b :: 0 <= a < b < |CollectTags(allTags, qs)| ==>
      TagKey(CollectTags(allTags, qs)[a]) != TagKey(CollectTags(allTags, qs)[b])
  {
    if |qs| > 0 {
      CollectTagsSpec(allTags, qs[..|qs| - 1]);
    }
  }

  /** Every query that resolves leaves a tag of the same key in the result. */
  lemma {:induction false} CollectTagsComplete(allTags: seq<Item>, qs: seq<Query>, i: nat)
    requires i < |qs| && ByIdOrName(Some(allTags), qs[i], Tags).Some?
    ensures KeyTaken(CollectTags(allTags, qs), ByIdOrName(Some(allTags), qs[i], Tags).value)
  {
    var n := |qs| - 1;
    var acc := CollectTags(allTags, qs[..n]);
    if i < n {
      assert qs[..n][i] == qs[i];
      CollectTagsComplete(allTags, qs[..n], i);
      var k :| 0 <= k < |acc| && TagKey(acc[k]) == TagKey(ByIdOrName(Some(allTags), qs[i], Tags).value);
      assert CollectTags(allTags, qs)[k] == acc[k];
    } else {
      var hit := ByIdOrName(Some(allTags), qs[n], Tags);
      if !KeyTaken(acc, hit.value) {
        assert CollectTags(allTags, qs)[|acc|] == hit.value;
      } else {
        var k :| 0 <= k < |acc| && TagKey(acc[k]) == TagKey(hit.value);
        assert CollectTags(allTags, qs)[k] == acc[k];
      }
    }
  }

  /** `result.find(t => (t._id || t.id) === (hit._id || hit.id))`, as a truth value. */
  method IsKeyTaken(result: seq<Item>, t: Item) returns (taken: bool)
    ensures taken == KeyTaken(result, t)
  {
    taken := false;
    var k := 0;
    while k < |result|
      invariant 0 <= k <= |result|
      invariant taken <==> exists m :: 0 <= m < k && TagKey(result[m]) == TagKey(t)
    {
      if TagKey(result[k]) == TagKey(t) {
        taken := true;
      }
      k := k + 1;
    }
  }

  /** `resolveTags`: [] unless the tag list is an array and the argument truthy, else the tags collected in order. */
  method ResolveTags(allTags: Option<seq<Item>>, arg: TagArg) returns (result: seq<Item>)
    ensures allTags.None? || arg.Falsy? ==> result == []
    ensures allTags.Some? ==> result == CollectTags(allTags.value, Queries(arg))
  {
    result := [];
    if allTags.None? || arg.Falsy? {
      return;
    }
    var qs := Queries(arg);
    var i := 0;
    while i < |qs|
      invariant 0 <= i <= |qs|
      invariant result == CollectTags(allTags.value, qs[..i])
    {
      assert qs[..i + 1][..i] == qs[..i];
      var hit := ByIdOrName(allTags, qs[i], Tags);
      if hit.Some? {
        var taken := IsKeyTaken(result, hit.value);
        if !taken {
          result := result + [hit.value];
        }
      }
      i := i + 1;
    }
    assert qs[..|qs|] == qs;
  }
}
