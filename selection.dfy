/**
 * Choosing one OpenCL platform, then one GPU device, from an enumerated list:
 * a single candidate is taken without asking; otherwise the operator is asked
 * for a 1-based index until one is in range.
 */
module Selection {

  import opened Wrappers

  /**
   * The outcome of a menu. `consumed` counts the reads taken from the console;
   * when no read was acceptable the program is still waiting at the prompt.
   */
  datatype MenuResult<T> = Chosen(item: T, index: nat, consumed: nat) | AwaitingInput

  /** A read is accepted when it is a 1-based index into a list of `count` candidates. */
  predicate Accepts(count: nat, input: int) {
    1 <= input <= count
  }

  /** The position of the first accepted read, if any read is accepted. */
  function FirstAccepted(count: nat, inputs: seq<int>): (r: Option<nat>)
    ensures r.Some? ==> r.value < |inputs| && Accepts(count, inputs[r.value])
    ensures r.Some? ==> forall j :: 0 <= j < r.value ==> !Accepts(count, inputs[j])
    ensures r.None? <==> forall j :: 0 <= j < |inputs| ==> !Accepts(count, inputs[j])
  {
    if |inputs| == 0 then None
    else if Accepts(count, inputs[0]) then Some(0)
    else match FirstAccepted(count, inputs[1..])
      case None => None
      case Some(k) => Some(k + 1)
  }

  /**
   * The menu loop. Each element of `inputs` is the value one `cin >> input`
   * leaves behind; a read that is not a number leaves 0, which is rejected.
   * Returns the candidate at the first accepted index, its 0-based position and
   * the number of reads used, or AwaitingInput when every read was rejected.
   */
  method Pick<T>(candidates: seq<T>, inputs: seq<int>) returns (s: MenuResult<T>)
    ensures |candidates| == 1 ==> s == Chosen(candidates[0], 0, 0)
    ensures |candidates| != 1 ==>
      match FirstAccepted(|candidates|, inputs)
      case None => s == AwaitingInput
      case Some(k) => s == Chosen(candidates[inputs[k] - 1], inputs[k] - 1, k + 1)
    ensures s.Chosen? ==> s.index < |candidates| && s.item == candidates[s.index]
  {
    if |candidates| == 1 {
      return Chosen(candidates[0], 0, 0);
    }
    var n := |candidates|;
    var next := 0;
    if next == |inputs| {
      return AwaitingInput;
    }
    var input := inputs[next];
    next := next + 1;
    while !Accepts(n, input)
      invariant 1 <= next <= |inputs|
      invariant input == inputs[next - 1]
      invariant forall j :: 0 <= j < next - 1 ==> !Accepts(n, inputs[j])
      decreases |inputs| - next
    {
      if next == |inputs| {
        return AwaitingInput;
      }
      input := inputs[next];
      next := next + 1;
    }
    s := Chosen(candidates[input - 1], input - 1, next);
  }

  /** Reads typed after an accepted one do not change the choice. */
  lemma {:induction false} LaterInputIgnored(count: nat, inputs: seq<int>, more: seq<int>)
    requires FirstAccepted(count, inputs).Some?
    ensures FirstAccepted(count, inputs + more) == FirstAccepted(count, inputs)
  {
    assert (inputs + more)[0] == inputs[0];
    if !Accepts(count, inputs[0]) {
      assert (inputs + more)[1..] == inputs[1..] + more;
      LaterInputIgnored(count, inputs[1..], more);
    }
  }

  /** After a run of rejected reads, the choice is made by the reads that follow, shifted by the run. */
  lemma {:induction false} RejectedInputSkipped(count: nat, rejected: seq<int>, more: seq<int>)
    requires forall j :: 0 <= j < |rejected| ==> !Accepts(count, rejected[j])
    ensures FirstAccepted(count, rejected + more) ==
      match FirstAccepted(count, more)
      case None => None
      case Some(k) => Some(|rejected| + k)
  {
    if rejected != [] {
      assert (rejected + more)[0] == rejected[0];
      assert (rejected + more)[1..] == rejected[1..] + more;
      RejectedInputSkipped(count, rejected[1..], more);
    } else {
      assert rejected + more == more;
    }
  }

  /** With no candidate at all no read is ever accepted: the prompt repeats forever. */
  lemma EmptyListNeverAccepts(inputs: seq<int>)
    ensures FirstAccepted(0, inputs) == None
  {
  }

  /** Reads 0, 999 and 2 over two candidates: the first two are rejected and the third picks the second candidate. */
  method PickExample() returns (s: MenuResult<string>)
    ensures s == Chosen("second", 1, 3)
  {
    var inputs := [0, 999, 2];
    assert FirstAccepted(2, inputs[2..]) == Some(0);
    assert FirstAccepted(2, inputs[1..]) == Some(1);
    s := Pick(["first", "second"], inputs);
  }
}
