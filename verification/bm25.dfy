/** The statistics behind the sparse vectors. */
module Bm25 {

  /** How many documents contain a token. */
  function DocFreq(docs: seq<seq<string>>, token: string): (n: nat)
    ensures n <= |docs|
    ensures n > 0 <==> exists i :: 0 <= i < |docs| && token in docs[i]
  {
    if docs == [] then 0
    else
      var n := DocFreq(docs[..|docs| - 1], token);
      if token in docs[|docs| - 1] then n + 1 else n
  }

  function Length(docs: seq<seq<string>>): nat {
    if docs == [] then 0 else Length(docs[..|docs| - 1]) + |docs[|docs| - 1]|
  }

  /** The length of a collection is that of its documents taken together. */
  lemma {:induction false} LengthIs(a: seq<seq<string>>, b: seq<seq<string>>, doc: seq<string>)
    ensures Length(a + b) == Length(a) + Length(b) && Length([doc]) == |doc|
  {
    assert [doc][..0] == [];
    if b == [] {
      assert a + b == a;
    } else {
      LengthIs(a, b[..|b| - 1], doc);
      assert (a + b)[..|a + b| - 1] == a + b[..|b| - 1];
    }
  }

  /** Tokens numbered from zero without gaps. */
  ghost predicate Numbering(vocab: map<string, nat>) {
    && (forall t :: t in vocab ==> vocab[t] < |vocab|)
    && (forall t, u :: t in vocab && u in vocab && t != u ==> vocab[t] != vocab[u])
    && (forall n :: 0 <= n < |vocab| ==> Numbered(vocab, n))
  }

  ghost predicate Numbered(vocab: map<string, nat>, n: int) {
    exists t :: t in vocab && vocab[t] == n
  }

  lemma NumberOneMore(vocab: map<string, nat>, t: string)
    requires Numbering(vocab) && t !in vocab
    ensures Numbering(vocab[t := |vocab|]) && |vocab[t := |vocab|]| == |vocab| + 1
  {
    var after := vocab[t := |vocab|];
    assert after.Keys == vocab.Keys + {t};
    forall n | 0 <= n < |after| ensures Numbered(after, n) {
      if n < |vocab| {
        assert Numbered(vocab, n);
        var u :| u in vocab && vocab[u] == n;
        assert after[u] == n;
      } else {
        assert after[t] == n;
      }
    }
  }

  lemma DocFreqNext(docs: seq<seq<string>>, n: nat, t: string)
    requires n < |docs|
    ensures DocFreq(docs[..n + 1], t) == DocFreq(docs[..n], t) + (if t in docs[n] then 1 else 0)
  {
    assert docs[..n + 1][..n] == docs[..n];
  }

  /** One more document: every token it contains is numbered and counted once. */
  method AddDocument(doc: seq<string>, vocab0: map<string, nat>, docFreq0: map<string, nat>)
    returns (vocab: map<string, nat>, docFreq: map<string, nat>)
    requires Numbering(vocab0) && vocab0.Keys == docFreq0.Keys
    ensures Numbering(vocab) && vocab.Keys == docFreq.Keys
    ensures forall t :: t in docFreq <==> t in docFreq0 || t in doc
    ensures forall t :: t in docFreq ==>
      docFreq[t] == (if t in docFreq0 then docFreq0[t] else 0) + (if t in doc then 1 else 0)
    ensures forall t :: t in vocab0 ==> t in vocab && vocab[t] == vocab0[t]
  {
    hide Numbering;
    vocab, docFreq := vocab0, docFreq0;
    var todo := set t | t in doc;
    while todo != {}
      invariant forall t :: t in todo ==> t in doc
      invariant Numbering(vocab) && vocab.Keys == docFreq.Keys
      invariant forall t :: t in docFreq <==> t in docFreq0 || (t in doc && t !in todo)
      invariant forall t :: t in docFreq ==>
        docFreq[t] == (if t in docFreq0 then docFreq0[t] else 0) + (if t in doc && t !in todo then 1 else 0)
      invariant forall t :: t in vocab0 ==> t in vocab && vocab[t] == vocab0[t]
      decreases todo
    {
      var t :| t in todo;
      todo := todo - {t};
      if t !in vocab {
        NumberOneMore(vocab, t);
        vocab := vocab[t := |vocab|];
      }
      docFreq := docFreq[t := (if t in docFreq then docFreq[t] else 0) + 1];
    }
  }

  method RebuildStats(docs: seq<seq<string>>)
    returns (vocab: map<string, nat>, docFreq: map<string, nat>, total: nat)
    ensures Numbering(vocab) && vocab.Keys == docFreq.Keys
    ensures forall t :: t in docFreq <==> DocFreq(docs, t) > 0
    ensures forall t :: t in docFreq ==> docFreq[t] == DocFreq(docs, t) && 1 <= docFreq[t] <= |docs|
    ensures total == Length(docs)
  {
    hide Numbering;
    vocab, docFreq, total := map[], map[], 0;
    NothingNumbered();
    for i := 0 to |docs|
      invariant Numbering(vocab) && vocab.Keys == docFreq.Keys
      invariant forall t :: t in docFreq <==> DocFreq(docs[..i], t) > 0
      invariant forall t :: t in docFreq ==> docFreq[t] == DocFreq(docs[..i], t)
      invariant total == Length(docs[..i])
    {
      assert docs[..i + 1][..i] == docs[..i];
      total := total + |docs[i]|;
      vocab, docFreq := AddDocument(docs[i], vocab, docFreq);
      forall t ensures DocFreq(docs[..i + 1], t) == DocFreq(docs[..i], t) + (if t in docs[i] then 1 else 0) {
        DocFreqNext(docs, i, t);
      }
    }
    assert docs[..|docs|] == docs;
  }

  lemma NothingNumbered()
    ensures Numbering(map[])
  {
  }
}
