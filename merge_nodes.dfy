/**
 * Two-operand reconciliation of resource nodes (merge_nodes.go).
 *
 * `MergeNodes(base, source)` builds a new node field by field: identity
 * strings prefer a non-empty `source` value, the attribute and relationship
 * maps are taken from `source` only when it has strictly more entries, and
 * the links and meta pointers are taken from `source` when they are set.
 * Nothing is scored and nothing is merged below the top level.
 */
module Merge {
  import opened Wrappers

  /**
   * The fields of a Go `Node` that the merge reads. Attribute values,
   * relationship descriptors, links and meta are opaque to it; a nil Go map
   * is the empty map (both have length 0) and a nil pointer is `None`.
   */
  datatype Node<A, R, L, M> = Node(
    typeName: string,
    id: string,
    lid: string,
    clientId: string,
    attributes: map<string, A>,
    relationships: map<string, R>,
    links: Option<L>,
    meta: Option<M>)

  /** A node with every field empty or unset. */
  function EmptyNode<A, R, L, M>(): (n: Node<A, R, L, M>)
    ensures n.typeName == n.id == n.lid == n.clientId == ""
    ensures |n.attributes| == 0 && |n.relationships| == 0
    ensures n.links.None? && n.meta.None?
  {
    Node("", "", "", "", map[], map[], None, None)
  }

  /** Every string of `values` is empty. */
  ghost predicate AllEmpty(values: seq<string>)
  {
    forall i :: 0 <= i < |values| ==> values[i] == ""
  }

  /**
   * `firstNonEmpty(values...)`: the first non-empty string in order, or ""
   * when there is none.
   */
  function FirstNonEmpty(values: seq<string>): (r: string)
    ensures r == "" <==> AllEmpty(values)
    ensures r != "" ==> r in values
  {
    if |values| == 0 then
      ""
    else if values[0] != "" then
      values[0]
    else
      FirstNonEmpty(values[1..])
  }

  /** Whatever follows the first non-empty string does not matter. */
  lemma {:induction false} FirstNonEmptyIsFirst(values: seq<string>, i: nat)
    requires i < |values| && values[i] != "" && AllEmpty(values[..i])
    ensures FirstNonEmpty(values) == values[i]
  {
    if i > 0 {
      assert values[0] == values[..i][0];
      assert values[1..][..i - 1] == values[1..i];
      FirstNonEmptyIsFirst(values[1..], i - 1);
    }
  }

  /** The identity-field rule: `source`'s string if it is non-empty, else `base`'s. */
  lemma FirstNonEmptyOfTwo(source: string, base: string)
    ensures FirstNonEmpty([source, base]) == if source != "" then source else base
  {
    if source == "" {
      assert [source, base][1..] == [base];
    }
  }

  /**
   * `mergeNodes(base, source)`. The source code guards the map choice with
   * "not nil", "non-empty" and "longer than base"; the first two follow from
   * the third, so the contract states only the strict length comparison.
   */
  function MergeNodes<A, R, L, M>(base: Node<A, R, L, M>, source: Node<A, R, L, M>): (r: Node<A, R, L, M>)
    ensures r.typeName == if source.typeName != "" then source.typeName else base.typeName
    ensures r.id == if source.id != "" then source.id else base.id
    ensures r.lid == if source.lid != "" then source.lid else base.lid
    ensures r.clientId == if source.clientId != "" then source.clientId else base.clientId
    ensures r.attributes == if |source.attributes| > |base.attributes| then source.attributes else base.attributes
    ensures r.relationships == if |source.relationships| > |base.relationships| then source.relationships else base.relationships
    ensures r.links == if source.links.Some? then source.links else base.links
    ensures r.meta == if source.meta.Some? then source.meta else base.meta
  {
    FirstNonEmptyOfTwo(source.typeName, base.typeName);
    FirstNonEmptyOfTwo(source.id, base.id);
    FirstNonEmptyOfTwo(source.lid, base.lid);
    FirstNonEmptyOfTwo(source.clientId, base.clientId);
    Node(
      FirstNonEmpty([source.typeName, base.typeName]),
      FirstNonEmpty([source.id, base.id]),
      FirstNonEmpty([source.lid, base.lid]),
      FirstNonEmpty([source.clientId, base.clientId]),
      if |source.attributes| > 0 && |source.attributes| > |base.attributes| then source.attributes else base.attributes,
      if |source.relationships| > 0 && |source.relationships| > |base.relationships| then source.relationships else base.relationships,
      if source.links.Some? then source.links else base.links,
      if source.meta.Some? then source.meta else base.meta)
  }

  /** Merging a node with itself gives that node back. */
  lemma MergeIdempotent<A, R, L, M>(x: Node<A, R, L, M>)
    ensures MergeNodes(x, x) == x
  {
  }

  /** A source with nothing in it leaves the base as it is. */
  lemma MergeEmptySource<A, R, L, M>(base: Node<A, R, L, M>)
    ensures MergeNodes(base, EmptyNode()) == base
  {
  }

  /**
   * Every field of the result is the same field of one operand: values are
   * selected whole, never combined key by key.
   */
  lemma MergeSelectsWholeFields<A, R, L, M>(base: Node<A, R, L, M>, source: Node<A, R, L, M>)
    ensures var r := MergeNodes(base, source);
      && r.typeName in {source.typeName, base.typeName}
      && r.id in {source.id, base.id}
      && r.lid in {source.lid, base.lid}
      && r.clientId in {source.clientId, base.clientId}
      && r.attributes in {source.attributes, base.attributes}
      && r.relationships in {source.relationships, base.relationships}
      && r.links in {source.links, base.links}
      && r.meta in {source.meta, base.meta}
  {
  }

  /**
   * An identity field of the result is empty, and links or meta are unset,
   * only when they are in both operands.
   */
  lemma MergeEmptyOnlyWhenBothEmpty<A, R, L, M>(base: Node<A, R, L, M>, source: Node<A, R, L, M>)
    ensures var r := MergeNodes(base, source);
      && (r.typeName == "" <==> source.typeName == "" && base.typeName == "")
      && (r.id == "" <==> source.id == "" && base.id == "")
      && (r.lid == "" <==> source.lid == "" && base.lid == "")
      && (r.clientId == "" <==> source.clientId == "" && base.clientId == "")
      && (r.links.None? <==> source.links.None? && base.links.None?)
      && (r.meta.None? <==> source.meta.None? && base.meta.None?)
  {
  }

  /**
   * The maps of the result are never smaller than either operand's: the
   * larger one is kept, and on a tie the base's.
   */
  lemma MergeKeepsLargerMaps<A, R, L, M>(base: Node<A, R, L, M>, source: Node<A, R, L, M>)
    ensures var r := MergeNodes(base, source);
      && |r.attributes| >= |base.attributes| && |r.attributes| >= |source.attributes|
      && |r.relationships| >= |base.relationships| && |r.relationships| >= |source.relationships|
      && (|source.attributes| == |base.attributes| ==> r.attributes == base.attributes)
      && (|source.relationships| == |base.relationships| ==> r.relationships == base.relationships)
  {
  }

  /**
   * Which operand's map is kept depends on the number of entries alone: two
   * sources of equal size lead to the same choice, whatever their contents.
   */
  lemma MergeMapChoiceBySizeOnly<A, R, L, M>(base: Node<A, R, L, M>, s1: Node<A, R, L, M>, s2: Node<A, R, L, M>)
    requires |s1.attributes| == |s2.attributes| && |s1.relationships| == |s2.relationships|
    ensures var r1, r2 := MergeNodes(base, s1), MergeNodes(base, s2);
      && ((r1.attributes == s1.attributes && r2.attributes == s2.attributes)
          || (r1.attributes == base.attributes && r2.attributes == base.attributes))
      && ((r1.relationships == s1.relationships && r2.relationships == s2.relationships)
          || (r1.relationships == base.relationships && r2.relationships == base.relationships))
  {
  }

  /**
   * An example of the size rule: with equal sizes the base's attributes are
   * kept even though the source's value is non-empty and the base's is not.
   */
  lemma MergeComparesSizesOnly()
    ensures var base: Node<string, int, int, int> := Node("article", "1", "", "", map["title" := ""], map[], None, None);
      var source: Node<string, int, int, int> := Node("", "", "", "", map["title" := "Hello"], map[], None, None);
      MergeNodes(base, source) == base
  {
  }
}
