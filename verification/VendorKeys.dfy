/**
 * The scanner for vendor-extension keys against the grammar it stands for: `x-`, a word, and one or
 * more dotted labels.
 */
module VendorKeys {
  import opened KeyShapes

  /** One or more characters, all accepted. */
  predicate Run(s: string, ok: char -> bool) { s != "" && forall i :: 0 <= i < |s| ==> ok(s[i]) }

  function Spell(labels: seq<string>): string {
    if labels == [] then "" else "." + labels[0] + Spell(labels[1..])
  }

  ghost predicate Grammatical(key: string, head: string, labels: seq<string>) {
    && Run(head, Alphanumeric) && labels != [] && (forall i :: 0 <= i < |labels| ==> Run(labels[i], LabelChar))
    && key == "x-" + head + Spell(labels)
  }

  /** A run ends exactly where its characters stop being accepted. */
  lemma {:induction false} RunEndIs(key: string, i: nat, ok: char -> bool, m: nat)
    requires i <= m <= |key| && (m < |key| ==> !ok(key[m])) && forall k :: i <= k < m ==> ok(key[k])
    ensures RunEnd(key, i, ok) == m
    decreases |key| - i
  {
    if i < m {
      RunEndIs(key, i + 1, ok, m);
    }
  }

  lemma {:induction false} RunEndAccepts(key: string, i: nat, ok: char -> bool)
    requires i <= |key|
    ensures var j := RunEnd(key, i, ok); forall k :: i <= k < j ==> ok(key[k])
    decreases |key| - i
  {
    if i < |key| && ok(key[i]) {
      RunEndAccepts(key, i + 1, ok);
    }
  }

  lemma {:induction false} ScannedLabels(key: string, i: nat) returns (labels: seq<string>)
    requires i <= |key| && Labels(key, i)
    ensures labels != [] && (forall k :: 0 <= k < |labels| ==> Run(labels[k], LabelChar)) && key[i..] == Spell(labels)
    decreases |key| - i
  {
    RunEndAccepts(key, i + 1, LabelChar);
    var j := RunEnd(key, i + 1, LabelChar);
    var part := key[i + 1..j];
    var rest: seq<string> := [];
    if j < |key| {
      rest := ScannedLabels(key, j);
    }
    labels := [part] + rest;
    assert labels[1..] == rest;
    assert key[i..] == "." + part + key[j..];
  }

  lemma {:induction false} SpelledLabels(key: string, i: nat, labels: seq<string>)
    requires i <= |key| && labels != [] && (forall k :: 0 <= k < |labels| ==> Run(labels[k], LabelChar)) && key[i..] == Spell(labels)
    ensures Labels(key, i)
    decreases |labels|
  {
    var part, rest := labels[0], Spell(labels[1..]);
    var j := i + 1 + |part|;
    assert Spell(labels) == "." + part + rest;
    assert key[i..][0] == '.';
    assert key[i + 1..j] == part by { assert key[i..][1..1 + |part|] == part; }
    assert key[j..] == rest by { assert key[i..][1 + |part|..] == rest; }
    assert forall k :: i + 1 <= k < j ==> key[k] == part[k - i - 1];
    if j < |key| {
      assert rest[0] == key[j];
      assert labels[1..] != [];
      assert rest[0] == '.';
      SpelledLabels(key, j, labels[1..]);
    }
    RunEndIs(key, i + 1, LabelChar, j);
  }

  /** The scanner accepts exactly the keys of the grammar. */
  lemma {:induction false} VendorKeyIffGrammatical(key: string)
    ensures IsVendorExtension(key) <==> exists head: string, labels: seq<string> :: Grammatical(key, head, labels)
  {
    if IsVendorExtension(key) {
      var j := RunEnd(key, 2, Alphanumeric);
      RunEndAccepts(key, 2, Alphanumeric);
      var labels := ScannedLabels(key, j);
      assert key == "x-" + key[2..j] + key[j..];
      assert Grammatical(key, key[2..j], labels);
    }
    if exists head: string, labels: seq<string> :: Grammatical(key, head, labels) {
      var head: string, labels: seq<string> :| Grammatical(key, head, labels);
      var j := 2 + |head|;
      assert key[j..] == Spell(labels);
      assert key[..2] == "x-" && forall k :: 2 <= k < j ==> key[k] == head[k - 2];
      assert key[j] == Spell(labels)[0] == '.';
      RunEndIs(key, 2, Alphanumeric, j);
      SpelledLabels(key, j, labels);
    }
  }
}
