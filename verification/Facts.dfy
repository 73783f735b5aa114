/** What extraction records about one repository, and how far it may be trusted. */
module Facts {
  import opened Wrappers

  /** How far an extraction may be trusted: complete, or incomplete for these reasons. */
  datatype Inspection = Inspection(complete: bool, reasons: seq<string>) {
    function MarkIncomplete(reason: string): Inspection {
      Inspection(false, AppendUnique(reasons, reason))
    }
  }

  const COMPLETE := Inspection(true, [])

  const TREE_TRUNCATED := "tree_truncated"
  const READ_FAILED := "read_failed"
  const PARSE_FAILED := "parse_failed"
  const TOO_MANY_CANDIDATES := "too_many_candidates"

  /**
   * One stored fact. `data` is what decoding its payload leaves behind and `decodes` whether decoding went
   * through; `recorded` is the outcome stored inside the payload and `complete` the row's own column.
   */
  datatype Fact<+D> = Fact(organization: string, repository: string, data: D, decodes: bool, recorded: Inspection,
                           treeSha: string, complete: bool, version: int, extractedAt: int)

  /** The inspection a reader may rely on: never more trustworthy than the row, and never for an undecodable payload. */
  function Reading<D>(fact: Fact<D>): Inspection {
    if !fact.decodes then Inspection(false, [PARSE_FAILED])
    else if !fact.complete then fact.recorded.(complete := false)
    else fact.recorded
  }

  ghost predicate AllComplete<D(!new)>(facts: seq<Fact<D>>) {
    forall f :: f in facts ==> Reading(f).complete
  }

  lemma AllCompleteStep<D(!new)>(facts: seq<Fact<D>>, fact: Fact<D>)
    ensures AllComplete(facts + [fact]) <==> AllComplete(facts) && Reading(fact).complete
  {
    assert forall f :: f in facts + [fact] <==> f in facts || f == fact;
  }

  function AddReasons(list: seq<string>, more: seq<string>): seq<string> {
    if more == [] then list else AppendUnique(AddReasons(list, more[..|more| - 1]), more[|more| - 1])
  }

  /** Why a reconciliation over these facts may not retract anything. */
  function Reasons<D>(facts: seq<Fact<D>>): seq<string> {
    if facts == [] then []
    else
      var before, last := Reasons(facts[..|facts| - 1]), Reading(facts[|facts| - 1]);
      if last.complete then before else AddReasons(before, last.reasons)
  }

  /** The payload each repository is read from: its last fact's. */
  function Payloads<D>(facts: seq<Fact<D>>): (m: map<string, D>)
    ensures forall r :: r in m <==> exists i :: 0 <= i < |facts| && facts[i].repository == r
  {
    if facts == [] then map[]
    else
      var last := facts[|facts| - 1];
      var m := Payloads(facts[..|facts| - 1])[last.repository := last.data];
      assert forall i :: 0 <= i < |facts| - 1 ==> facts[..|facts| - 1][i] == facts[i];
      m
  }

  lemma OneMoreFact<D(!new)>(facts: seq<Fact<D>>, fact: Fact<D>)
    ensures AllComplete(facts + [fact]) <==> AllComplete(facts) && Reading(fact).complete
    ensures Reasons(facts + [fact]) == if Reading(fact).complete then Reasons(facts) else AddReasons(Reasons(facts), Reading(fact).reasons)
    ensures Payloads(facts + [fact]) == Payloads(facts)[fact.repository := fact.data]
  {
    AllCompleteStep(facts, fact);
    assert (facts + [fact])[..|facts|] == facts;
  }

  /** A fact is believed complete exactly when its payload decodes and row and payload both say so. */
  lemma BelievedIff<D>(fact: Fact<D>)
    ensures Reading(fact).complete <==> fact.decodes && fact.complete && fact.recorded.complete
  {
  }

  /** The reasons a fact gives: its own, or that it does not decode. */
  ghost predicate Gives<D>(fact: Fact<D>, reason: string) {
    if fact.decodes then !(fact.complete && fact.recorded.complete) && reason in fact.recorded.reasons
    else reason == PARSE_FAILED
  }

  lemma {:induction false} AddingReasons(list: seq<string>, more: seq<string>)
    ensures forall x :: x in AddReasons(list, more) <==> x in list || x in more
  {
    if more != [] {
      AddingReasons(list, more[..|more| - 1]);
    }
  }

  /** The reasons reported are exactly those some incomplete fact gives. */
  lemma {:induction false} ReasonsAreGiven<D(!new)>(facts: seq<Fact<D>>, reason: string)
    ensures reason in Reasons(facts) <==> exists i :: 0 <= i < |facts| && Gives(facts[i], reason)
  {
    if facts != [] {
      var front, last := facts[..|facts| - 1], facts[|facts| - 1];
      ReasonsAreGiven(front, reason);
      AddingReasons(Reasons(front), Reading(last).reasons);
      assert forall i :: 0 <= i < |front| ==> front[i] == facts[i];
    }
  }

  /** A repository is read from the last of its facts. */
  lemma {:induction false} LastPayloadWins<D(!new)>(facts: seq<Fact<D>>, n: nat)
    requires n < |facts| && forall m :: n < m < |facts| ==> facts[m].repository != facts[n].repository
    ensures facts[n].repository in Payloads(facts) && Payloads(facts)[facts[n].repository] == facts[n].data
  {
    if n < |facts| - 1 {
      LastPayloadWins(facts[..|facts| - 1], n);
    }
  }

  method CollectReasons(list: seq<string>, more: seq<string>) returns (r: seq<string>)
    ensures r == AddReasons(list, more)
  {
    r := list;
    for i := 0 to |more|
      invariant r == AddReasons(list, more[..i])
    {
      r := AppendUnique(r, more[i]);
      assert more[..i + 1][..i] == more[..i];
    }
    assert more[..|more|] == more;
  }
}
