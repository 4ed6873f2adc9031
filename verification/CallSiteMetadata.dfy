/** Writing call-site metadata, reading it back, and classifying an argument by its labels. */
module CallSiteMetadata {
  import opened Text
  import opened Metadata

  type Labels = map<string, seq<string>>

  // ---- Writing and reading ----

  function Texts(labels: seq<string>): (ns: seq<Node>)
    ensures |ns| == |labels| && forall i :: 0 <= i < |labels| ==> ns[i] == Label(labels[i])
  {
    seq(|labels|, i requires 0 <= i < |labels| => Label(labels[i]))
  }

  /** The keys in the order in which the hash table happens to hold them. */
  predicate IsOrder(keys: seq<string>, m: Labels) {
    multiset(keys) == multiset(m.Keys)
  }

  function ArgumentTuple(key: string, labels: seq<string>): Node {
    Tuple([Label(key)] + Texts(labels))
  }

  lemma Twice<T>(s: seq<T>, i: nat, j: nat)
    requires i < j < |s| && s[i] == s[j]
    ensures multiset(s)[s[i]] >= 2
  {
    assert s == s[..j] + [s[j]] + s[j + 1..];
    assert s[i] in multiset(s[..j]);
  }

  lemma OrderKeys(keys: seq<string>, m: Labels)
    requires IsOrder(keys, m)
    ensures forall k :: k in keys <==> k in m
    ensures |keys| == |m|
    ensures forall i, j :: 0 <= i < j < |keys| ==> keys[i] != keys[j]
  {
    assert forall k :: k in keys <==> k in multiset(keys);
    assert |multiset(keys)| == |multiset(m.Keys)|;
    forall i, j | 0 <= i < j < |keys|
      ensures keys[i] != keys[j]
    {
      if keys[i] == keys[j] {
        Twice(keys, i, j);
        assert false;
      }
    }
  }

  function SiteNode(id: int, m: Labels, keys: seq<string>): (node: seq<Node>)
    requires IsOrder(keys, m)
    ensures |node| == |keys| + 1
  {
    OrderKeys(keys, m);
    [Constant(ToBits(id))] + seq(|keys|, i requires 0 <= i < |keys| => ArgumentTuple(keys[i], m[keys[i]]))
  }

  /** `setCallSiteMetadata`. */
  method SetCallSiteMetadata(id: int, m: Labels, keys: seq<string>) returns (node: seq<Node>)
    requires IsOrder(keys, m)
    ensures node == SiteNode(id, m, keys)
  {
    OrderKeys(keys, m);
    node := [Constant(ToBits(id))];
    for e := 0 to |keys|
      invariant node == SiteNode(id, m, keys)[..e + 1]
    {
      var list := m[keys[e]];
      var mdList := [Label(keys[e])];
      for i := 0 to |list|
        invariant mdList == [Label(keys[e])] + Texts(list[..i])
      {
        mdList := mdList + [Label(list[i])];
      }
      assert list[..|list|] == list;
      node := node + [Tuple(mdList)];
    }
  }

  /** The number a written key stands for. */
  function KeyIndex(key: string): nat {
    match DigitsValue(key) case Some(k) => k case None => 0
  }

  /** A key that is the decimal form of a number the reader's 64 bits hold. */
  ghost predicate IsIndexKey(key: string) {
    KeyIndex(key) < TWO_TO_THE_64 && key == Decimal(KeyIndex(key))
  }

  lemma IntegerRoundTrip(id: int)
    ensures FromBits(ToBits(id)) == id <==> IsInt64(id)
  {
  }

  /**
    * In whatever order the table is walked, the reader gets the id back, and reading all positions yields every pair of
    * an index and its labels exactly once.
    */
  lemma SiteRoundTrip(id: int, m: Labels, keys: seq<string>)
    requires IsOrder(keys, m) && IsInt64(id) && forall key :: key in m ==> IsIndexKey(key)
    ensures var site := Some(SiteNode(id, m, keys));
            && GetSiteId(site) == Some(id) && ArgumentCount(site) == |m|
            && (forall slot :: 0 <= slot < |m| ==>
                  slot < |keys| && keys[slot] in m &&
                  GetArgument(site, slot) == Some(ArgumentLabels(KeyIndex(keys[slot]), Texts(m[keys[slot]]))))
            && (forall slot1, slot2 :: 0 <= slot1 < slot2 < |m| ==> KeyIndex(keys[slot1]) != KeyIndex(keys[slot2]))
            && (forall key :: key in m ==> exists slot :: 0 <= slot < |m| && keys[slot] == key)
  {
    hide *;
    OrderKeys(keys, m);
    SiteHead(id, m, keys);
    forall slot | 0 <= slot < |m|
      ensures GetArgument(Some(SiteNode(id, m, keys)), slot) ==
              Some(ArgumentLabels(KeyIndex(keys[slot]), Texts(m[keys[slot]])))
    {
      ReadArgument(id, m, keys, slot);
    }
    forall slot1, slot2 | 0 <= slot1 < slot2 < |m|
      ensures KeyIndex(keys[slot1]) != KeyIndex(keys[slot2])
    {
      SameIndex(keys[slot1], keys[slot2]);
    }
    forall key | key in m
      ensures exists slot :: 0 <= slot < |m| && keys[slot] == key
    {
      assert key in keys;
    }
  }

  lemma SiteHead(id: int, m: Labels, keys: seq<string>)
    requires IsOrder(keys, m) && IsInt64(id)
    ensures GetSiteId(Some(SiteNode(id, m, keys))) == Some(id) && ArgumentCount(Some(SiteNode(id, m, keys))) == |m|
  {
    OrderKeys(keys, m);
    IntegerRoundTrip(id);
  }

  lemma SameIndex(a: string, b: string)
    requires IsIndexKey(a) && IsIndexKey(b)
    ensures KeyIndex(a) == KeyIndex(b) <==> a == b
  {
  }

  lemma ReadArgument(id: int, m: Labels, keys: seq<string>, slot: nat)
    requires IsOrder(keys, m) && slot < |keys| && keys[slot] in m && IsIndexKey(keys[slot])
    ensures GetArgument(Some(SiteNode(id, m, keys)), slot) ==
            Some(ArgumentLabels(KeyIndex(keys[slot]), Texts(m[keys[slot]])))
  {
    var key := keys[slot];
    ParseOfDecimal(KeyIndex(key));
    assert ([Label(key)] + Texts(m[key]))[1..] == Texts(m[key]);
  }

  // ---- Classifying an argument ----

  /** Some label gives this kind, and none gives the other. */
  predicate OnlyKind(labels: seq<Node>, isInput: bool) {
    (exists i :: 0 <= i < |labels| && LabelType(labels[i]) == Some(isInput)) &&
    forall i :: 0 <= i < |labels| ==> LabelType(labels[i]) != Some(!isInput)
  }

  /** Labels of both kinds contradict each other and count for nothing. */
  lemma ClassificationExact(labels: seq<Node>, isInput: bool)
    ensures ArgumentType(labels) == Some(isInput) <==> OnlyKind(labels, isInput)
  {
    hide LabelType;
    if HasType(labels, isInput) && !HasType(labels, !isInput) {
      assert OnlyKind(labels, isInput);
    }
    if OnlyKind(labels, isInput) {
      assert HasType(labels, isInput) && !HasType(labels, !isInput);
    }
  }

  /** The label loop: it remembers where it last saw either type, counting from the operand behind the index. */
  method GetArgumentMetadataType(labels: seq<Node>) returns (found: bool, isInput: bool)
    ensures found <==> exists kind :: OnlyKind(labels, kind)
    ensures found ==> OnlyKind(labels, isInput)
    ensures (if found then Some(isInput) else None) == ArgumentType(labels)
  {
    hide LabelType;
    var indexInput, indexOutput := -1, -1;
    for i := 0 to |labels|
      invariant -1 <= indexInput < i && -1 <= indexOutput < i
      invariant indexInput > -1 <==> HasType(labels[..i], true)
      invariant indexOutput > -1 <==> HasType(labels[..i], false)
    {
      HasTypeSnoc(labels, i, true);
      HasTypeSnoc(labels, i, false);
      var kind := LabelType(labels[i]);
      if kind == Some(true) {
        indexInput := i;
      } else if kind == Some(false) {
        indexOutput := i;
      }
    }
    assert labels[..|labels|] == labels;
    ClassificationExact(labels, true);
    ClassificationExact(labels, false);
    if indexInput > -1 && indexOutput == -1 {
      return true, true;
    }
    if indexInput == -1 && indexOutput > -1 {
      return true, false;
    }
    return false, false;
  }

  lemma HasTypeSnoc(labels: seq<Node>, i: nat, isInput: bool)
    requires i < |labels|
    ensures HasType(labels[..i + 1], isInput) <==>
            HasType(labels[..i], isInput) || LabelType(labels[i]) == Some(isInput)
  {
    hide LabelType;
    var longer := labels[..i + 1];
    if LabelType(labels[i]) == Some(isInput) {
      assert LabelType(longer[i]) == Some(isInput);
    }
    if HasType(labels[..i], isInput) {
      var j :| 0 <= j < i && LabelType(labels[..i][j]) == Some(isInput);
      assert LabelType(longer[j]) == Some(isInput);
    }
    if HasType(longer, isInput) {
      var j :| 0 <= j < i + 1 && LabelType(longer[j]) == Some(isInput);
      if j < i {
        assert LabelType(labels[..i][j]) == Some(isInput);
      }
    }
  }

  /** The answer does not depend on the order of the labels, nor on how often each occurs. */
  lemma ClassificationIgnoresOrder(a: seq<Node>, b: seq<Node>)
    requires forall l :: l in a <==> l in b
    ensures ArgumentType(a) == ArgumentType(b)
  {
    hide LabelType;
    SameTypes(a, b, true);
    SameTypes(a, b, false);
  }

  lemma SameTypes(a: seq<Node>, b: seq<Node>, isInput: bool)
    requires forall l :: l in a <==> l in b
    ensures HasType(a, isInput) <==> HasType(b, isInput)
  {
    hide LabelType;
    if HasType(a, isInput) {
      var i :| 0 <= i < |a| && LabelType(a[i]) == Some(isInput);
      assert a[i] in b;
    }
    if HasType(b, isInput) {
      var i :| 0 <= i < |b| && LabelType(b[i]) == Some(isInput);
      assert b[i] in a;
    }
  }
}
