/** The tag string appended to every put line (opentsdb.go, openTSDB).
    The slice of tag tokens is created holding len(Tags) empty strings and
    the tokens are then appended after them, so once joined with single
    spaces the string starts with one blank per tag. */
module Tags {
  import opened Text

  /** One tag rendered as key=value. */
  function Token(key: string, value: string): string
  {
    key + "=" + value
  }

  /** The runtime's enumeration of a map's keys: every key exactly once,
      in an order the model does not fix. */
  predicate EnumeratesKeys(order: seq<string>, tags: map<string, string>)
  {
    (forall i, j :: 0 <= i < j < |order| ==> order[i] != order[j]) &&
    (forall i :: 0 <= i < |order| ==> order[i] in tags) &&
    (forall k :: k in tags ==> k in order)
  }

  /** n empty strings: the slice as make([]string, n) creates it. */
  function Blanks(n: nat): (r: seq<string>)
    ensures |r| == n && forall i :: 0 <= i < n ==> r[i] == ""
  {
    if n == 0 then [] else [""] + Blanks(n - 1)
  }

  /** n space characters. */
  function Spaces(n: nat): (r: string)
    ensures |r| == n && forall i :: 0 <= i < n ==> r[i] == ' '
  {
    if n == 0 then "" else " " + Spaces(n - 1)
  }

  /** The key=value tokens, one per key of the enumeration, in its order. */
  function Tokens(tags: map<string, string>, order: seq<string>): (r: seq<string>)
    requires forall i :: 0 <= i < |order| ==> order[i] in tags
    ensures |r| == |order|
    ensures forall i :: 0 <= i < |order| ==> r[i] == Token(order[i], tags[order[i]])
  {
    if order == [] then []
    else Tokens(tags, order[..|order| - 1]) + [Token(order[|order| - 1], tags[order[|order| - 1]])]
  }

  /** The tag string as the source builds it: the blanks, then the tokens,
      all joined with single spaces. */
  function TagString(tags: map<string, string>, order: seq<string>): string
    requires EnumeratesKeys(order, tags)
  {
    Join(Blanks(|tags|) + Tokens(tags, order), " ")
  }

  /** Rendering loop of openTSDB: pre-size with blanks, append one token
      per map entry, join with single spaces. */
  method RenderTags(tags: map<string, string>, order: seq<string>) returns (s: string)
    requires EnumeratesKeys(order, tags)
    ensures s == TagString(tags, order)
  {
    var tagArr := Blanks(|tags|);
    for i := 0 to |order|
      invariant tagArr == Blanks(|tags|) + Tokens(tags, order[..i])
    {
      assert order[..i + 1][..i] == order[..i];
      tagArr := tagArr + [Token(order[i], tags[order[i]])];
    }
    assert order[..|order|] == order;
    s := Join(tagArr, " ");
  }

  lemma {:induction false} DistinctLength(order: seq<string>)
    requires forall i, j :: 0 <= i < j < |order| ==> order[i] != order[j]
    ensures |set k | k in order| == |order|
  {
    if order != [] {
      var rest := order[1..];
      DistinctLength(rest);
      assert (set k | k in order) == {order[0]} + (set k | k in rest);
      assert order[0] !in rest;
    }
  }

  /** An enumeration of the keys has one entry per map entry. */
  lemma EnumerationLength(order: seq<string>, tags: map<string, string>)
    requires EnumeratesKeys(order, tags)
    ensures |order| == |tags|
  {
    DistinctLength(order);
    assert (set k | k in order) == tags.Keys;
  }

  lemma {:induction false} JoinAfterBlanks(n: nat, ts: seq<string>)
    requires |ts| > 0
    ensures Join(Blanks(n) + ts, " ") == Spaces(n) + Join(ts, " ")
  {
    if n == 0 {
      assert Blanks(0) + ts == ts;
    } else {
      JoinAfterBlanks(n - 1, ts);
      assert (Blanks(n) + ts)[1..] == Blanks(n - 1) + ts;
    }
  }

  /** What the tag string is: empty without tags; otherwise exactly one
      blank per tag, then one key=value token per tag joined by single
      spaces, every key of the map occurring in exactly one token. */
  lemma TagStringShape(tags: map<string, string>, order: seq<string>)
    requires EnumeratesKeys(order, tags)
    ensures |tags| == 0 ==> TagString(tags, order) == ""
    ensures |tags| > 0 ==> TagString(tags, order) == Spaces(|tags|) + Join(Tokens(tags, order), " ")
    ensures |Tokens(tags, order)| == |tags|
    ensures forall k :: k in tags ==>
              exists i :: 0 <= i < |tags| && order[i] == k && Tokens(tags, order)[i] == Token(k, tags[k])
  {
    EnumerationLength(order, tags);
    if |tags| == 0 {
      assert Blanks(0) + Tokens(tags, order) == [];
    } else {
      JoinAfterBlanks(|tags|, Tokens(tags, order));
    }
    forall k | k in tags
      ensures exists i :: 0 <= i < |tags| && order[i] == k && Tokens(tags, order)[i] == Token(k, tags[k])
    {
      var i :| 0 <= i < |order| && order[i] == k;
    }
  }

  /** Two tags render with two leading blanks. */
  lemma TagStringExample()
    ensures var tags := map["dc" := "eu", "env" := "prod"];
            EnumeratesKeys(["env", "dc"], tags) && TagString(tags, ["env", "dc"]) == "  env=prod dc=eu"
  {
    var tags, order := map["dc" := "eu", "env" := "prod"], ["env", "dc"];
    assert EnumeratesKeys(order, tags);
    assert |tags| == 2 by {
      assert tags.Keys == {"dc", "env"};
    }
    TagStringShape(tags, order);
    var ts := Tokens(tags, order);
    assert ts[0] == Token("env", "prod") == "env=prod";
    assert ts[1] == Token("dc", "eu") == "dc=eu";
    assert Join(ts, " ") == "env=prod dc=eu" by {
      assert ts[1..] == ["dc=eu"];
    }
    assert Spaces(2) == "  ";
  }
}
