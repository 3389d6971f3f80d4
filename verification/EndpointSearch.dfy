/** The search for a stream endpoint to open: bta_av_disc_results, bta_av_next_getcap and
    bta_av_getcap_results (bta/av/bta_av_aact.cc). */
module EndpointSearch {

  const AUDIO_SOURCE: nat := 0x110A
  const AUDIO_SINK: nat := 0x110B
  const TSEP_SRC: nat := 0
  const TSEP_SNK: nat := 1

  /** A stream endpoint the peer reported. */
  datatype Sep = Sep(inUse: bool, tsep: nat, mediaType: nat)

  /** Requests and reports of the search. */
  datatype Call = GetCap(idx: nat) | OpenReq(idx: nat) | GetCapFailed | DiscFailed

  /** The type of endpoint to look for; anything but a source looks for TSEP_SRC, whose number is 0. */
  function Requested(uuid: nat): nat { if uuid == AUDIO_SOURCE then TSEP_SNK else TSEP_SRC }

  predicate Eligible(e: Sep, uuid: nat, media: nat) {
    !e.inUse && e.tsep == Requested(uuid) && e.mediaType == media
  }

  /** All eligible endpoints from `from` on, in index order. */
  function Candidates(seps: seq<Sep>, uuid: nat, media: nat, from: nat): (r: seq<nat>)
    ensures forall k :: 0 <= k < |r| ==> from <= r[k] < |seps| && Eligible(seps[r[k]], uuid, media)
    ensures forall j, k :: 0 <= j < k < |r| ==> r[j] < r[k]
    ensures forall i :: from <= i < |seps| && Eligible(seps[i], uuid, media) ==> i in r
    decreases |seps| - from
  {
    if from >= |seps| then []
    else
      var rest := Candidates(seps, uuid, media, from + 1);
      if Eligible(seps[from], uuid, media) then [from] + rest else rest
  }

  /** What one pass of bta_av_next_getcap asks for: the first candidate, or a failure. */
  function FirstCall(candidates: seq<nat>): Call {
    if candidates == [] then GetCapFailed else GetCap(candidates[0])
  }

  class SearchControl {
    var sepInfo: seq<Sep>
    var numSeps: nat
    var sepInfoIdx: nat
    const uuid: nat
    const mediaType: nat
    var numDiscSnks: nat
    var numDiscSrcs: nat
    var calls: seq<Call>

    ghost predicate Valid()
      reads this
    {
      numSeps <= |sepInfo|
    }

    /** The candidates not yet passed. */
    ghost function Left(): seq<nat>
      requires Valid()
      reads this
    {
      Candidates(sepInfo[..numSeps], uuid, mediaType, sepInfoIdx)
    }

    /** The capabilities of the first candidate not yet passed are outstanding. */
    ghost predicate Asked()
      requires Valid()
      reads this
    {
      Left() != [] && sepInfoIdx == Left()[0]
    }

    constructor (uuid: nat, mediaType: nat)
      ensures Valid() && calls == [] && this.uuid == uuid && this.mediaType == mediaType
    {
      this.uuid, this.mediaType := uuid, mediaType;
      sepInfo, numSeps, sepInfoIdx, numDiscSnks, numDiscSrcs, calls := [], 0, 0, 0, 0, [];
    }

    /** bta_av_next_getcap: moves on to the next candidate and asks for its capabilities. */
    method NextGetCap() returns (sent: bool)
      requires Valid()
      modifies this`sepInfoIdx, this`calls
      ensures Valid() && calls == old(calls) + [FirstCall(old(Left()))]
      ensures sent == (old(Left()) != [])
      ensures sent ==> sepInfoIdx == old(Left())[0] && Left() == old(Left())
      ensures !sent ==> sepInfoIdx == old(sepInfoIdx)
    {
      var sepRequested := TSEP_SRC;
      if uuid == AUDIO_SOURCE { sepRequested := TSEP_SNK; }
      ghost var seps := sepInfo[..numSeps];
      sent := false;
      var i := sepInfoIdx;
      while i < numSeps
        invariant sepInfoIdx == old(sepInfoIdx) && calls == old(calls) && !sent
        invariant Candidates(seps, uuid, mediaType, i) == Left()
        decreases numSeps - i
      {
        if !sepInfo[i].inUse && sepInfo[i].tsep == sepRequested && sepInfo[i].mediaType == mediaType {
          assert Eligible(seps[i], uuid, mediaType);
          sepInfoIdx := i;
          calls := calls + [GetCap(i)];
          sent := true;
          break;
        }
        assert !Eligible(seps[i], uuid, mediaType);
        i := i + 1;
      }
      if !sent {
        calls := calls + [GetCapFailed];
      }
    }

    /** bta_av_disc_results: the peer's endpoints are known, the search starts. */
    method DiscResults(seps: seq<Sep>) returns (waiting: bool)
      modifies this
      ensures Valid() && sepInfo == seps && numSeps == |seps|
      ensures seps == [] ==> calls == old(calls) + [DiscFailed]
      ensures seps != [] ==>
                var all := Candidates(seps, uuid, mediaType, 0);
                calls == old(calls) + [FirstCall(all)] && (all != [] ==> Left() == all)
      ensures waiting == (Candidates(seps, uuid, mediaType, 0) != []) && (waiting ==> Asked())
      ensures numDiscSnks == CountKind(seps, uuid, mediaType, AUDIO_SOURCE, TSEP_SNK)
      ensures numDiscSrcs == CountKind(seps, uuid, mediaType, AUDIO_SINK, TSEP_SRC)
    {
      sepInfo, numSeps := seps, |seps|;
      var snks, srcs := 0, 0;
      for i := 0 to |seps|
        invariant snks == CountKind(seps[..i], uuid, mediaType, AUDIO_SOURCE, TSEP_SNK)
        invariant srcs == CountKind(seps[..i], uuid, mediaType, AUDIO_SINK, TSEP_SRC)
      {
        assert seps[..i + 1][..i] == seps[..i];
        if !seps[i].inUse && seps[i].mediaType == mediaType {
          if seps[i].tsep == TSEP_SNK && uuid == AUDIO_SOURCE { snks := snks + 1; }
          if seps[i].tsep == TSEP_SRC && uuid == AUDIO_SINK { srcs := srcs + 1; }
        }
      }
      assert seps[..|seps|] == seps;
      numDiscSnks, numDiscSrcs := snks, srcs;
      if numSeps > 0 {
        sepInfoIdx := 0;
        waiting := NextGetCap();
      } else {
        calls := calls + [DiscFailed];
        waiting := false;
      }
    }

    /** bta_av_getcap_results: `usable` says the codec is present, of the right media type and accepted
        by the configuration callout, which may then choose an index of its own. */
    method GetCapResults(usable: bool, chosen: nat) returns (waiting: bool)
      requires Valid() && Asked()
      modifies this`sepInfoIdx, this`calls
      ensures Valid()
      ensures usable ==> calls == old(calls) + [OpenReq(chosen)]
      ensures !usable ==> calls == old(calls) + [FirstCall(old(Left())[1..])]
      ensures waiting == (!usable && |old(Left())| > 1)
      ensures waiting ==> Asked() && Left() == old(Left())[1..]
    {
      if usable {
        sepInfoIdx := chosen;
        calls := calls + [OpenReq(sepInfoIdx)];
        waiting := false;
      } else {
        CandidatesTail(sepInfo[..numSeps], uuid, mediaType, sepInfoIdx);
        sepInfoIdx := sepInfoIdx + 1;
        waiting := NextGetCap();
      }
    }
  }

  function CountKind(seps: seq<Sep>, uuid: nat, media: nat, role: nat, tsep: nat): nat {
    if seps == [] then 0
    else
      var e := seps[|seps| - 1];
      CountKind(seps[..|seps| - 1], uuid, media, role, tsep) +
        if !e.inUse && e.mediaType == media && e.tsep == tsep && uuid == role then 1 else 0
  }

  lemma CandidatesTail(seps: seq<Sep>, uuid: nat, media: nat, from: nat)
    requires Candidates(seps, uuid, media, from) != [] && Candidates(seps, uuid, media, from)[0] == from
    ensures Candidates(seps, uuid, media, from + 1) == Candidates(seps, uuid, media, from)[1..]
  {
  }

  lemma {:induction false} CandidatesSnoc(seps: seq<Sep>, e: Sep, uuid: nat, media: nat, from: nat)
    requires from <= |seps|
    ensures |Candidates(seps + [e], uuid, media, from)| ==
            |Candidates(seps, uuid, media, from)| + if Eligible(e, uuid, media) then 1 else 0
    decreases |seps| - from
  {
    if from < |seps| {
      CandidatesSnoc(seps, e, uuid, media, from + 1);
    } else {
      assert Candidates(seps + [e], uuid, media, from + 1) == [];
    }
  }

  /** The discovered endpoints that are counted are the ones that the search will try: sinks for a source,
      sources for a sink, and none for any other role. */
  lemma {:induction false} CountsCandidates(seps: seq<Sep>, uuid: nat, media: nat)
    ensures CountKind(seps, uuid, media, AUDIO_SOURCE, TSEP_SNK) ==
            if uuid == AUDIO_SOURCE then |Candidates(seps, uuid, media, 0)| else 0
    ensures CountKind(seps, uuid, media, AUDIO_SINK, TSEP_SRC) ==
            if uuid == AUDIO_SINK then |Candidates(seps, uuid, media, 0)| else 0
    decreases |seps|
  {
    if seps != [] {
      var n := |seps| - 1;
      CountsCandidates(seps[..n], uuid, media);
      CandidatesSnoc(seps[..n], seps[n], uuid, media, 0);
      assert seps[..n] + [seps[n]] == seps;
    }
  }

  // ----- whole searches

  /** The requests `answers` gives rise to: each answer is for the endpoint asked last. The search is
      over once an endpoint is opened or a failure is reported; later answers do not occur. */
  function Search(candidates: seq<nat>, answers: seq<bool>, chosen: nat): seq<Call> {
    [FirstCall(candidates)] +
    if candidates == [] || answers == [] then []
    else if answers[0] then [OpenReq(chosen)]
    else Search(candidates[1..], answers[1..], chosen)
  }

  function Queries(candidates: seq<nat>): seq<Call> {
    seq(|candidates|, k requires 0 <= k < |candidates| => GetCap(candidates[k]))
  }

  /** After `n` refusals exactly the first n + 1 candidates have been asked, in order, each once; when
      all have refused, a failure is reported. */
  lemma {:induction false} AllAsked(candidates: seq<nat>, answers: seq<bool>, chosen: nat)
    requires |answers| <= |candidates| && forall k :: 0 <= k < |answers| ==> !answers[k]
    ensures Search(candidates, answers, chosen) ==
            if |answers| < |candidates| then Queries(candidates[..|answers| + 1])
            else Queries(candidates) + [GetCapFailed]
    decreases |candidates|
  {
    if answers != [] {
      AllAsked(candidates[1..], answers[1..], chosen);
      if |answers| < |candidates| {
        assert candidates[..|answers| + 1][1..] == candidates[1..][..|answers|];
        assert Queries(candidates[..|answers| + 1]) == [GetCap(candidates[0])] + Queries(candidates[1..][..|answers|]);
      } else {
        assert Queries(candidates) == [GetCap(candidates[0])] + Queries(candidates[1..]);
      }
    } else if candidates != [] {
      assert Queries(candidates[..1]) == [GetCap(candidates[0])];
    } else {
      assert Queries(candidates) == [];
    }
  }

  /** The first usable endpoint ends the search: the candidates up to it have been asked, none after. */
  lemma {:induction false} StopsAtFirstUsable(candidates: seq<nat>, answers: seq<bool>, chosen: nat, n: nat)
    requires n < |candidates| && n < |answers| && answers[n] && forall k :: 0 <= k < n ==> !answers[k]
    ensures Search(candidates, answers, chosen) == Queries(candidates[..n + 1]) + [OpenReq(chosen)]
    decreases n
  {
    if n > 0 {
      StopsAtFirstUsable(candidates[1..], answers[1..], chosen, n - 1);
      assert Queries(candidates[..n + 1]) == [GetCap(candidates[0])] + Queries(candidates[1..][..n]);
    } else {
      assert Queries(candidates[..1]) == [GetCap(candidates[0])];
    }
  }

  /** How the record grows by one answer. */
  lemma SearchUnfolds(base: seq<Call>, candidates: seq<nat>, answers: seq<bool>, chosen: nat)
    requires candidates != [] && answers != []
    ensures answers[0] ==> base + Search(candidates, answers, chosen)[1..] == base + [OpenReq(chosen)]
    ensures !answers[0] ==>
              base + Search(candidates, answers, chosen)[1..] ==
              base + [FirstCall(candidates[1..])] + Search(candidates[1..], answers[1..], chosen)[1..]
    ensures candidates[1..] == [] ==> Search(candidates[1..], answers[1..], chosen)[1..] == []
  {
  }

  /** Answers come in while a request is outstanding. */
  method Conclude(av: SearchControl, answers: seq<bool>, chosen: nat)
    requires av.Valid() && av.Asked()
    modifies av
    ensures av.calls == old(av.calls) + Search(old(av.Left()), answers, chosen)[1..]
    decreases |answers|
  {
    if answers == [] { return; }
    ghost var left := av.Left();
    SearchUnfolds(av.calls, left, answers, chosen);
    var waiting := av.GetCapResults(answers[0], chosen);
    if waiting {
      Conclude(av, answers[1..], chosen);
    }
  }

  /** Whatever the answers, the machine makes exactly these requests. */
  method RunSearch(seps: seq<Sep>, uuid: nat, mediaType: nat, answers: seq<bool>, chosen: nat) returns (made: seq<Call>)
    ensures seps == [] ==> made == [DiscFailed]
    ensures seps != [] ==> made == Search(Candidates(seps, uuid, mediaType, 0), answers, chosen)
  {
    var av := new SearchControl(uuid, mediaType);
    var waiting := av.DiscResults(seps);
    if waiting {
      Conclude(av, answers, chosen);
    }
    made := av.calls;
  }
}
