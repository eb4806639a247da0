/**
  Reassembling tool calls from a stream. A model sends each call in fragments that carry the
  call's index; fragments of different calls may come interleaved.
*/
module ToolCalls {
  datatype ToolCall = ToolCall(id: string, kind: string, name: string, arguments: string)

  datatype Fragment = Fragment(index: int, id: string, kind: string, name: string, arguments: string)

  /** One fragment: it opens a call, or extends the arguments and may rename. */
  function Merged(m: map<int, ToolCall>, f: Fragment): map<int, ToolCall> {
    if f.index !in m then m[f.index := ToolCall(f.id, f.kind, f.name, f.arguments)]
    else
      var c := m[f.index];
      m[f.index := c.(arguments := c.arguments + f.arguments, name := if f.name != "" then f.name else c.name)]
  }

  function Assembled(fs: seq<Fragment>): map<int, ToolCall> {
    if fs == [] then map[] else Merged(Assembled(fs[..|fs| - 1]), fs[|fs| - 1])
  }

  /** The fragments of one call, in order. */
  function Of(fs: seq<Fragment>, index: int): seq<Fragment> {
    if fs == [] then []
    else Of(fs[..|fs| - 1], index) + if fs[|fs| - 1].index == index then [fs[|fs| - 1]] else []
  }

  function AllArguments(fs: seq<Fragment>): string {
    if fs == [] then "" else AllArguments(fs[..|fs| - 1]) + fs[|fs| - 1].arguments
  }

  /** The last name that is not empty. */
  function LastName(fs: seq<Fragment>): string {
    if fs == [] then ""
    else if fs[|fs| - 1].name != "" then fs[|fs| - 1].name
    else LastName(fs[..|fs| - 1])
  }

  /**
    A call is present iff some fragment names its index, and then it has the first such
    fragment's ID and type, all its arguments joined, and its last name.
  */
  lemma {:induction false} AssembledCall(fs: seq<Fragment>, index: int)
    ensures index in Assembled(fs) <==> Of(fs, index) != []
    ensures var own := Of(fs, index);
            own != [] ==> Assembled(fs)[index] == ToolCall(own[0].id, own[0].kind, LastName(own), AllArguments(own))
  {
    if fs != [] {
      var front, last := fs[..|fs| - 1], fs[|fs| - 1];
      AssembledCall(front, index);
      if last.index == index {
        var own := Of(front, index);
        assert (own + [last])[..|own|] == own;
        if own == [] {
          assert AllArguments([last]) == "" + last.arguments;
        }
      } else {
        assert Of(fs, index) == Of(front, index);
      }
    }
  }

  /** One more fragment belongs to its own call and to no other. */
  lemma OfNext(fs: seq<Fragment>, f: Fragment, index: int)
    ensures Of([], index) == [] && Of(fs + [f], index) == if f.index == index then Of(fs, index) + [f] else Of(fs, index)
  {
    assert (fs + [f])[..|fs|] == fs;
  }

  /** The arguments come joined in order. */
  lemma AllArgumentsNext(fs: seq<Fragment>, f: Fragment)
    ensures AllArguments([]) == "" && AllArguments(fs + [f]) == AllArguments(fs) + f.arguments
  {
    assert (fs + [f])[..|fs|] == fs;
  }

  /** The name is that of the last fragment that has one, and empty if none has. */
  lemma {:induction false} LastNameIs(fs: seq<Fragment>)
    ensures (forall i :: 0 <= i < |fs| ==> fs[i].name == "") ==> LastName(fs) == ""
    ensures forall i :: 0 <= i < |fs| && fs[i].name != "" && (forall j :: i < j < |fs| ==> fs[j].name == "") ==>
              LastName(fs) == fs[i].name
  {
    if fs != [] && fs[|fs| - 1].name == "" {
      LastNameIs(fs[..|fs| - 1]);
      forall i | 0 <= i < |fs| && fs[i].name != "" && (forall j :: i < j < |fs| ==> fs[j].name == "")
        ensures LastName(fs) == fs[i].name
      {
        assert fs[..|fs| - 1][i] == fs[i];
      }
    }
  }

  /** Streams that agree call by call give the same calls, however they interleave. */
  lemma InterleavingIrrelevant(fs: seq<Fragment>, gs: seq<Fragment>)
    requires forall index :: Of(fs, index) == Of(gs, index)
    ensures Assembled(fs) == Assembled(gs)
  {
    forall index
      ensures index in Assembled(fs) <==> index in Assembled(gs)
      ensures index in Assembled(fs) ==> Assembled(fs)[index] == Assembled(gs)[index]
    {
      AssembledCall(fs, index);
      AssembledCall(gs, index);
    }
  }

  /** The calls come out of the map each exactly once, in some order. */
  ghost predicate Lists(calls: seq<ToolCall>, m: map<int, ToolCall>)
    decreases |calls|
  {
    if calls == [] then m == map[]
    else exists key :: key in m && m[key] == calls[|calls| - 1] && Lists(calls[..|calls| - 1], m - {key})
  }

  lemma ListsAppend(calls: seq<ToolCall>, m: map<int, ToolCall>, key: int, call: ToolCall)
    requires Lists(calls, m) && key !in m
    ensures Lists(calls + [call], m[key := call])
  {
    var all := calls + [call];
    assert all[..|all| - 1] == calls;
    assert m[key := call] - {key} == m;
  }

  /** As many calls come out as were assembled. */
  lemma {:induction false} ListsCount(calls: seq<ToolCall>, m: map<int, ToolCall>)
    requires Lists(calls, m)
    ensures |calls| == |m|
    decreases |calls|
  {
    if calls != [] {
      var key :| key in m && m[key] == calls[|calls| - 1] && Lists(calls[..|calls| - 1], m - {key});
      ListsCount(calls[..|calls| - 1], m - {key});
      assert m.Keys == (m - {key}).Keys + {key};
    }
  }

  /** Map iteration: every value once, the order not determined. */
  method Values(m: map<int, ToolCall>) returns (calls: seq<ToolCall>)
    ensures Lists(calls, m) && |calls| == |m|
  {
    calls := [];
    var left := m.Keys;
    ghost var seen: map<int, ToolCall> := map[];
    while exists key :: key in left
      invariant left <= m.Keys && seen == m - left
      invariant Lists(calls, seen)
      decreases left
    {
      var key :| key in left;
      ListsAppend(calls, seen, key, m[key]);
      calls, left := calls + [m[key]], left - {key};
      seen := seen[key := m[key]];
    }
    assert seen == m;
    ListsCount(calls, m);
  }
}
