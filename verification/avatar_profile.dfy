/**
 * Equipping and unequipping an avatar on a profile: the profile's attribute
 * list is copied, then the "avatar" attribute is upserted (equip) or dropped
 * (unequip), and the page tells whether the avatar it shows is equipped.
 */
module AvatarProfile {
  import opened Wrappers

  /** A JavaScript value that may be null, undefined or defined. */
  datatype Nullish<T> = Null | Undefined | Defined(value: T)

  /** One key/value attribute of a profile's metadata. */
  datatype Attribute = Attribute(
    key: string,
    value: string,
    traitType: Nullish<string>,
    displayType: Nullish<string>)

  const AvatarKey := "avatar"

  /** `x ?? undefined`: null becomes undefined, everything else is kept. */
  function OrUndefined<T>(x: Nullish<T>): (r: Nullish<T>)
    ensures !r.Null?
    ensures x.Defined? ==> r == x
    ensures !x.Defined? ==> r == Undefined
  {
    if x.Null? then Undefined else x
  }

  /** The attribute data sent back with the profile metadata. */
  function CopyAttribute(a: Attribute): (r: Attribute)
    ensures r.key == a.key && r.value == a.value
    ensures !r.traitType.Null? && !r.displayType.Null?
    ensures a.traitType.Defined? <==> r.traitType.Defined?
    ensures a.traitType.Defined? ==> r.traitType == a.traitType
    ensures a.displayType.Defined? <==> r.displayType.Defined?
    ensures a.displayType.Defined? ==> r.displayType == a.displayType
  {
    Attribute(a.key, a.value, OrUndefined(a.traitType), OrUndefined(a.displayType))
  }

  /** The profile's attributes copied one by one; an absent list gives []. */
  function CopyAttributes(attrs: Option<seq<Attribute>>): (r: seq<Attribute>)
    ensures attrs.None? ==> r == []
    ensures attrs.Some? ==> |r| == |attrs.value|
    ensures attrs.Some? ==> forall i :: 0 <= i < |r| ==> r[i] == CopyAttribute(attrs.value[i])
  {
    match attrs
    case None => []
    case Some(a) => seq(|a|, i requires 0 <= i < |a| => CopyAttribute(a[i]))
  }

  /** `findIndex` by key: the first position holding `key`, or -1. */
  function FindIndex(attrs: seq<Attribute>, key: string): (r: int)
    ensures -1 <= r < |attrs|
    ensures r == -1 <==> forall i :: 0 <= i < |attrs| ==> attrs[i].key != key
    ensures r >= 0 ==> attrs[r].key == key
    ensures r >= 0 ==> forall i :: 0 <= i < r ==> attrs[i].key != key
  {
    if |attrs| == 0 then -1
    else if attrs[0].key == key then 0
    else
      var k := FindIndex(attrs[1..], key);
      if k == -1 then -1 else k + 1
  }

  /** `find` by key on a list that may be absent. */
  function Find(attrs: Option<seq<Attribute>>, key: string): (r: Option<Attribute>)
    ensures r.Some? <==> attrs.Some? && FindIndex(attrs.value, key) >= 0
    ensures r.Some? ==> r.value == attrs.value[FindIndex(attrs.value, key)]
  {
    match attrs
    case None => None
    case Some(a) =>
      var i := FindIndex(a, key);
      if i == -1 then None else Some(a[i])
  }

  /** The number of entries keyed `key`. */
  function KeyCount(attrs: seq<Attribute>, key: string): (n: nat)
    ensures n <= |attrs|
    ensures n == 0 <==> FindIndex(attrs, key) == -1
  {
    if |attrs| == 0 then 0
    else (if attrs[0].key == key then 1 else 0) + KeyCount(attrs[1..], key)
  }

  /** The entry `addAttribute` writes: key and value, no trait or display type. */
  function NewAttribute(key: string, value: string): Attribute {
    Attribute(key, value, Undefined, Undefined)
  }

  /**
   * `addAttribute(key, value)`: with a value, replace the first entry keyed
   * `key` in place or append one; with `undefined`, remove the first entry
   * keyed `key` if there is one.
   */
  function AddAttribute(attrs: seq<Attribute>, key: string, value: Option<string>): (r: seq<Attribute>)
    ensures var i := FindIndex(attrs, key);
      && (value.Some? && i == -1 ==> r == attrs + [NewAttribute(key, value.value)])
      && (value.Some? && i >= 0 ==>
            && |r| == |attrs|
            && r[i] == NewAttribute(key, value.value)
            && forall j :: 0 <= j < |r| && j != i ==> r[j] == attrs[j])
      && (value.None? && i >= 0 ==> r == attrs[..i] + attrs[i + 1..])
      && (value.None? && i == -1 ==> r == attrs)
    ensures value.Some? ==> Find(Some(r), key) == Some(NewAttribute(key, value.value))
    ensures value.None? ==> KeyCount(r, key) == if KeyCount(attrs, key) == 0 then 0 else KeyCount(attrs, key) - 1
  {
    var i := FindIndex(attrs, key);
    match value
    case None =>
      if i == -1 then attrs
      else
        var r := attrs[..i] + attrs[i + 1..];
        RemovedCount(attrs, key);
        r
    case Some(v) =>
      var r := if i == -1 then attrs + [NewAttribute(key, v)] else attrs[i := NewAttribute(key, v)];
      assert FindIndex(r, key) == (if i == -1 then |attrs| else i) by {
        FirstKeyAt(r, key, if i == -1 then |attrs| else i);
      }
      r
  }

  lemma {:induction false} FirstKeyAt(attrs: seq<Attribute>, key: string, k: nat)
    requires k < |attrs| && attrs[k].key == key
    requires forall j :: 0 <= j < k ==> attrs[j].key != key
    ensures FindIndex(attrs, key) == k
  {
  }

  lemma {:induction false} KeyCountAppend(a: seq<Attribute>, b: seq<Attribute>, key: string)
    ensures KeyCount(a + b, key) == KeyCount(a, key) + KeyCount(b, key)
    decreases |a|
  {
    if |a| > 0 {
      assert (a + b)[1..] == a[1..] + b;
      KeyCountAppend(a[1..], b, key);
    } else {
      assert a + b == b;
    }
  }

  lemma {:induction false} SingletonCounts(x: Attribute, key: string)
    ensures KeyCount([x], key) == if x.key == key then 1 else 0
    ensures WithoutKey([x], key) == if x.key == key then [] else [x]
  {
    assert [x][1..] == [];
  }

  lemma {:induction false} RemovedCount(attrs: seq<Attribute>, key: string)
    requires FindIndex(attrs, key) >= 0
    ensures var i := FindIndex(attrs, key);
      KeyCount(attrs[..i] + attrs[i + 1..], key) == KeyCount(attrs, key) - 1
  {
    var i := FindIndex(attrs, key);
    var before, x, after := attrs[..i], attrs[i], attrs[i + 1..];
    assert attrs == (before + [x]) + after;
    KeyCountAppend(before + [x], after, key);
    KeyCountAppend(before, [x], key);
    KeyCountAppend(before, after, key);
    SingletonCounts(x, key);
  }

  /** The attribute list sent when equipping the avatar with id `id`. */
  function Equip(profileAttrs: Option<seq<Attribute>>, id: Option<string>): (r: seq<Attribute>)
    ensures id.Some? ==> Find(Some(r), AvatarKey) == Some(NewAttribute(AvatarKey, id.value))
    ensures id.None? ==> KeyCount(r, AvatarKey) == if KeyCount(CopyAttributes(profileAttrs), AvatarKey) == 0 then 0
      else KeyCount(CopyAttributes(profileAttrs), AvatarKey) - 1
    ensures WithoutKey(r, AvatarKey) == WithoutKey(CopyAttributes(profileAttrs), AvatarKey)
  {
    var copied := CopyAttributes(profileAttrs);
    AddAttributeKeepsOtherKeys(copied, AvatarKey, id);
    AddAttribute(copied, AvatarKey, id)
  }

  /** `attribute?.value === id`, where `attribute` is the first "avatar" entry. */
  function IsEquipped(profileAttrs: Option<seq<Attribute>>, id: Option<string>): (r: bool)
    ensures profileAttrs.Some? && FindIndex(profileAttrs.value, AvatarKey) >= 0 ==>
      (r <==> id == Some(profileAttrs.value[FindIndex(profileAttrs.value, AvatarKey)].value))
    ensures (profileAttrs.None? || FindIndex(profileAttrs.value, AvatarKey) == -1) ==> (r <==> id.None?)
  {
    match Find(profileAttrs, AvatarKey)
    case Some(a) => id == Some(a.value)
    case None => id.None?
  }

  /** After equipping avatar `id`, the page reports that avatar as equipped. */
  lemma {:induction false} EquipThenEquipped(profileAttrs: Option<seq<Attribute>>, id: string)
    ensures IsEquipped(Some(Equip(profileAttrs, Some(id))), Some(id))
  {
  }

  /** Upserting the same value twice is the same as upserting it once. */
  lemma {:induction false} AddAttributeIdempotent(attrs: seq<Attribute>, key: string, value: string)
    ensures var once := AddAttribute(attrs, key, Some(value));
      AddAttribute(once, key, Some(value)) == once
  {
    var once := AddAttribute(attrs, key, Some(value));
    var i := FindIndex(once, key);
    assert once[i] == NewAttribute(key, value);
    var twice := AddAttribute(once, key, Some(value));
    assert |twice| == |once|;
    assert forall j :: 0 <= j < |twice| ==> twice[j] == once[j];
  }

  /** Adding a new key and then removing it restores the list. */
  lemma {:induction false} AddThenRemove(attrs: seq<Attribute>, key: string, value: string)
    requires FindIndex(attrs, key) == -1
    ensures AddAttribute(AddAttribute(attrs, key, Some(value)), key, None) == attrs
  {
    var added := attrs + [NewAttribute(key, value)];
    assert FindIndex(added, key) == |attrs| by {
      FirstKeyAt(added, key, |attrs|);
    }
    assert added[..|attrs|] == attrs;
  }

  /** The entries whose key is not `key`, in their original order. */
  function WithoutKey(attrs: seq<Attribute>, key: string): (r: seq<Attribute>)
    ensures |r| == |attrs| - KeyCount(attrs, key)
  {
    if |attrs| == 0 then []
    else (if attrs[0].key == key then [] else [attrs[0]]) + WithoutKey(attrs[1..], key)
  }

  /** Dropping a key keeps exactly the entries with other keys. */
  lemma {:induction false} WithoutKeyMembers(attrs: seq<Attribute>, key: string)
    ensures forall a :: a in WithoutKey(attrs, key) <==> a in attrs && a.key != key
    decreases |attrs|
  {
    if |attrs| > 0 {
      WithoutKeyMembers(attrs[1..], key);
      assert attrs == [attrs[0]] + attrs[1..];
    }
  }

  /** The values of the `Some` entries, in order: `.filter(item => item !== null)`. */
  function Compact(s: seq<Option<Attribute>>): (r: seq<Attribute>)
    ensures |r| <= |s|
    ensures forall x :: x in r <==> Some(x) in s
  {
    if |s| == 0 then []
    else
      var rest := Compact(s[1..]);
      assert forall x :: Some(x) in s <==> Some(x) == s[0] || Some(x) in s[1..] by {
        assert s == [s[0]] + s[1..];
      }
      (if s[0].Some? then [s[0].value] else []) + rest
  }

  /** Filtering a concatenation filters each part, keeping order and repeats. */
  lemma {:induction false} CompactAppend(a: seq<Option<Attribute>>, b: seq<Option<Attribute>>)
    ensures Compact(a + b) == Compact(a) + Compact(b)
    decreases |a|
  {
    if |a| == 0 {
      assert a + b == b;
    } else {
      assert (a + b)[0] == a[0];
      assert (a + b)[1..] == a[1..] + b;
      CompactAppend(a[1..], b);
    }
  }

  /** A single entry: a value is kept, a null is dropped. */
  lemma CompactSingle(x: Attribute)
    ensures Compact([Some(x)]) == [x]
    ensures Compact([None]) == []
  {
    assert [Some(x)][1..] == [];
    var none: seq<Option<Attribute>> := [None];
    assert none[1..] == [];
  }

  /** `.map`: every "avatar" entry becomes null, every other entry is copied. */
  function MarkAvatars(attrs: seq<Attribute>): (r: seq<Option<Attribute>>)
    ensures |r| == |attrs|
    ensures forall i :: 0 <= i < |attrs| ==>
      r[i] == if attrs[i].key == AvatarKey then None else Some(CopyAttribute(attrs[i]))
  {
    seq(|attrs|, i requires 0 <= i < |attrs| =>
      if attrs[i].key == AvatarKey then None else Some(CopyAttribute(attrs[i])))
  }

  /**
   * The attribute list sent when unequipping: every "avatar" entry becomes
   * null, every other entry is copied, then the nulls are filtered out.
   */
  function Unequip(profileAttrs: Option<seq<Attribute>>): (r: seq<Attribute>)
    ensures forall i :: 0 <= i < |r| ==> r[i].key != AvatarKey
  {
    match profileAttrs
    case None => []
    case Some(a) =>
      var marked := MarkAvatars(a);
      assert forall x :: Some(x) in marked ==> x.key != AvatarKey by {
        forall x | Some(x) in marked
          ensures x.key != AvatarKey
        {
          var j :| 0 <= j < |marked| && marked[j] == Some(x);
        }
      }
      Compact(marked)
  }

  /** Copying keeps the keys, so it commutes with dropping a key. */
  lemma {:induction false} CopyWithoutKey(attrs: seq<Attribute>, key: string)
    ensures CopyAttributes(Some(WithoutKey(attrs, key))) == WithoutKey(CopyAttributes(Some(attrs)), key)
    decreases |attrs|
  {
    if |attrs| > 0 {
      CopyWithoutKey(attrs[1..], key);
      CopiedStep(attrs, key);
      var head := if attrs[0].key == key then [] else [attrs[0]];
      assert WithoutKey(attrs, key) == head + WithoutKey(attrs[1..], key);
      CopyAppend(head, WithoutKey(attrs[1..], key));
    }
  }

  lemma {:induction false} CopiedStep(attrs: seq<Attribute>, key: string)
    requires |attrs| > 0
    ensures WithoutKey(CopyAttributes(Some(attrs)), key) ==
      CopyAttributes(Some(if attrs[0].key == key then [] else [attrs[0]])) + WithoutKey(CopyAttributes(Some(attrs[1..])), key)
  {
    var copied := CopyAttributes(Some(attrs));
    assert copied[1..] == CopyAttributes(Some(attrs[1..]));
    assert WithoutKey(copied, key) == (if copied[0].key == key then [] else [copied[0]]) + WithoutKey(copied[1..], key);
  }

  lemma {:induction false} CopyAppend(a: seq<Attribute>, b: seq<Attribute>)
    ensures CopyAttributes(Some(a + b)) == CopyAttributes(Some(a)) + CopyAttributes(Some(b))
  {
    var whole, left, right := CopyAttributes(Some(a + b)), CopyAttributes(Some(a)), CopyAttributes(Some(b));
    forall i | 0 <= i < |whole|
      ensures whole[i] == (left + right)[i]
    {
      if i >= |a| {
        assert (a + b)[i] == b[i - |a|];
      }
    }
  }

  /**
   * Unequipping keeps exactly the non-avatar entries, copied, in their
   * original relative order.
   */
  lemma {:induction false} UnequipKeepsOthersInOrder(attrs: seq<Attribute>)
    ensures Unequip(Some(attrs)) == CopyAttributes(Some(WithoutKey(attrs, AvatarKey)))
    ensures |Unequip(Some(attrs))| == |attrs| - KeyCount(attrs, AvatarKey)
  {
    CompactMarked(attrs);
  }

  lemma {:induction false} CompactMarked(attrs: seq<Attribute>)
    ensures Compact(MarkAvatars(attrs)) == CopyAttributes(Some(WithoutKey(attrs, AvatarKey)))
    decreases |attrs|
  {
    if |attrs| > 0 {
      CompactMarked(attrs[1..]);
      MarkedStep(attrs);
      var head := if attrs[0].key == AvatarKey then [] else [attrs[0]];
      var tail := WithoutKey(attrs[1..], AvatarKey);
      assert WithoutKey(attrs, AvatarKey) == head + tail;
      CopyAppend(head, tail);
    }
  }

  /** The first marked entry, compacted, is the copied first entry if it is kept. */
  lemma {:induction false} MarkedStep(attrs: seq<Attribute>)
    requires |attrs| > 0
    ensures Compact(MarkAvatars(attrs)) ==
      CopyAttributes(Some(if attrs[0].key == AvatarKey then [] else [attrs[0]])) + Compact(MarkAvatars(attrs[1..]))
  {
    var marked := MarkAvatars(attrs);
    assert marked[1..] == MarkAvatars(attrs[1..]);
    assert Compact(marked) == (if marked[0].Some? then [marked[0].value] else []) + Compact(marked[1..]);
  }

  lemma {:induction false} WithoutKeyAppend(a: seq<Attribute>, b: seq<Attribute>, key: string)
    ensures WithoutKey(a + b, key) == WithoutKey(a, key) + WithoutKey(b, key)
    decreases |a|
  {
    if |a| > 0 {
      var head := if a[0].key == key then [] else [a[0]];
      assert (a + b)[0] == a[0];
      assert (a + b)[1..] == a[1..] + b;
      assert WithoutKey(a + b, key) == head + WithoutKey(a[1..] + b, key);
      assert WithoutKey(a, key) == head + WithoutKey(a[1..], key);
      WithoutKeyAppend(a[1..], b, key);
      assert head + (WithoutKey(a[1..], key) + WithoutKey(b, key))
        == (head + WithoutKey(a[1..], key)) + WithoutKey(b, key);
    } else {
      assert a + b == b;
    }
  }

  lemma {:induction false} WithoutKeySplice(before: seq<Attribute>, x: Attribute, after: seq<Attribute>, key: string)
    requires x.key == key
    ensures WithoutKey(before + [x] + after, key) == WithoutKey(before, key) + WithoutKey(after, key)
  {
    WithoutKeyAppend(before + [x], after, key);
    WithoutKeyAppend(before, [x], key);
    SingletonCounts(x, key);
  }

  lemma {:induction false} ReplaceKeepsOtherKeys(attrs: seq<Attribute>, i: nat, x: Attribute, key: string)
    requires i < |attrs| && attrs[i].key == key && x.key == key
    ensures WithoutKey(attrs[i := x], key) == WithoutKey(attrs, key)
  {
    var before, after := attrs[..i], attrs[i + 1..];
    assert attrs == before + [attrs[i]] + after;
    assert attrs[i := x] == before + [x] + after;
    WithoutKeySplice(before, attrs[i], after, key);
    WithoutKeySplice(before, x, after, key);
  }

  lemma {:induction false} RemoveKeepsOtherKeys(attrs: seq<Attribute>, i: nat, key: string)
    requires i < |attrs| && attrs[i].key == key
    ensures WithoutKey(attrs[..i] + attrs[i + 1..], key) == WithoutKey(attrs, key)
  {
    var before, after := attrs[..i], attrs[i + 1..];
    assert attrs == before + [attrs[i]] + after;
    WithoutKeySplice(before, attrs[i], after, key);
    WithoutKeyAppend(before, after, key);
  }

  lemma {:induction false} AppendKeepsOtherKeys(attrs: seq<Attribute>, x: Attribute, key: string)
    requires x.key == key
    ensures WithoutKey(attrs + [x], key) == WithoutKey(attrs, key)
  {
    WithoutKeyAppend(attrs, [x], key);
    SingletonCounts(x, key);
  }

  /** Whatever `addAttribute` does to `key`, the entries with other keys stay as they were. */
  lemma {:induction false} AddAttributeKeepsOtherKeys(attrs: seq<Attribute>, key: string, value: Option<string>)
    ensures WithoutKey(AddAttribute(attrs, key, value), key) == WithoutKey(attrs, key)
  {
    var i := FindIndex(attrs, key);
    match value
    case Some(v) =>
      if i >= 0 {
        ReplaceKeepsOtherKeys(attrs, i, NewAttribute(key, v), key);
      } else {
        AppendKeepsOtherKeys(attrs, NewAttribute(key, v), key);
      }
    case None =>
      if i >= 0 {
        RemoveKeepsOtherKeys(attrs, i, key);
      }
  }

  lemma {:induction false} CopyIdempotent(attrs: seq<Attribute>)
    ensures CopyAttributes(Some(CopyAttributes(Some(attrs)))) == CopyAttributes(Some(attrs))
  {
  }

  /** Unequipping after an equip gives the same list as unequipping directly. */
  lemma {:induction false} UnequipAfterEquip(profileAttrs: Option<seq<Attribute>>, id: Option<string>)
    ensures Unequip(Some(Equip(profileAttrs, id))) == Unequip(profileAttrs)
  {
    var copied := CopyAttributes(profileAttrs);
    var equipped := Equip(profileAttrs, id);
    UnequipKeepsOthersInOrder(equipped);
    AddAttributeKeepsOtherKeys(copied, AvatarKey, id);
    match profileAttrs
    case None =>
    case Some(a) =>
      UnequipKeepsOthersInOrder(a);
      CopyWithoutKey(a, AvatarKey);
      CopyIdempotent(WithoutKey(a, AvatarKey));
  }

  /** After unequipping, no avatar is reported as equipped. */
  lemma {:induction false} UnequipThenNotEquipped(profileAttrs: Option<seq<Attribute>>, id: string)
    ensures !IsEquipped(Some(Unequip(profileAttrs)), Some(id))
  {
  }
}
