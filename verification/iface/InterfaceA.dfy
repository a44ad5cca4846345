/** Interface A: starting and stopping several outputs with one masked frame instead of one frame each. */
module InterfaceA {
  import opened Bytes

  const OUTPUTS: nat := 6

  datatype Direction = Even | Odd

  datatype PortCommand = PortCommand(port: string, direction: Direction, power: byte)

  /** The duties of the six outputs. */
  type Duties = d: seq<byte> | |d| == OUTPUTS witness [0, 0, 0, 0, 0, 0]

  // ---- Port names ----

  predicate AllDigits(s: string) {
    s != "" && forall i :: 0 <= i < |s| ==> '0' <= s[i] <= '9'
  }

  function Number(s: string): nat
    requires forall i :: 0 <= i < |s| ==> '0' <= s[i] <= '9'
  {
    if s == "" then 0 else 10 * Number(s[..|s| - 1]) + (s[|s| - 1] as int - '0' as int)
  }

  /** A decimal number below six, as the standard integer parser reads it: leading zeros and a plus sign do not matter. */
  function OutputIndex(port: string): (r: Option<nat>)
    ensures r.Some? ==> r.value < OUTPUTS
  {
    var digits := if port != "" && port[0] == '+' then port[1..] else port;
    if AllDigits(digits) && Number(digits) < OUTPUTS then Some(Number(digits)) else None
  }

  function PairIndices(port: string): (r: Option<(nat, nat)>)
    ensures r.Some? ==> r.value.0 + 1 == r.value.1 < OUTPUTS
  {
    if port == "a" then Some((0, 1))
    else if port == "b" then Some((2, 3))
    else if port == "c" then Some((4, 5))
    else None
  }

  predicate Known(port: string) {
    PairIndices(port).Some? || OutputIndex(port).Some?
  }

  // ---- Which texts name an output ----

  const FIGURES: string := "0123456789"

  predicate Zeros(s: string) {
    forall i :: 0 <= i < |s| ==> s[i] == '0'
  }

  lemma {:induction false} ZerosAreZero(z: string)
    requires Zeros(z)
    ensures Number(z) == 0
    decreases z
  {
    if z != "" {
      ZerosAreZero(z[..|z| - 1]);
    }
  }

  /** One of the figures 0 to 5, behind any zeros and one plus sign, names the output of that number. */
  lemma FigureNames(z: string, n: nat)
    requires Zeros(z) && n < 6
    ensures OutputIndex(z + [FIGURES[n]]) == Some(n) && OutputIndex("+" + z + [FIGURES[n]]) == Some(n)
  {
    var s := z + [FIGURES[n]];
    FigureIs(n);
    ZerosAreZero(z);
    assert s[..|s| - 1] == z && s[|s| - 1] == FIGURES[n];
    assert s[0] == if z == "" then FIGURES[n] else z[0];
    assert ("+" + z + [FIGURES[n]])[1..] == s;
  }

  lemma FigureIs(n: nat)
    requires n < 10
    ensures FIGURES[n] as int == '0' as int + n
  {
  }

  lemma {:induction false} SmallNumber(s: string)
    requires AllDigits(s) && Number(s) < 6
    ensures Zeros(s[..|s| - 1]) && FIGURES[Number(s)] == s[|s| - 1]
    decreases s
  {
    var front, v := s[..|s| - 1], s[|s| - 1] as int - '0' as int;
    assert Number(front) == 0;
    FigureIs(v);
    if front != "" {
      SmallNumber(front);
      assert front[|front| - 1] == FIGURES[0];
      assert forall i :: 0 <= i < |front| - 1 ==> front[i] == front[..|front| - 1][i];
    }
  }

  /** No other text does. */
  lemma OnlyFiguresName(port: string)
    requires OutputIndex(port).Some?
    ensures var n := OutputIndex(port).value; n < 6 && exists z :: Zeros(z) && (port == z + [FIGURES[n]] || port == "+" + z + [FIGURES[n]])
  {
    var digits := if port != "" && port[0] == '+' then port[1..] else port;
    SmallNumber(digits);
    var z := digits[..|digits| - 1];
    assert digits == z + [digits[|digits| - 1]];
    assert port == digits || port == "+" + digits;
    assert "+" + (z + [digits[|digits| - 1]]) == "+" + z + [digits[|digits| - 1]];
  }

  /** The three pairs. */
  lemma PairsAre(d: Duties, power: byte)
    ensures Known("a") && Known("b") && Known("c") && !Known("d") && !Known("") && !Known("6")
    ensures Started(d, PortCommand("a", Even, power)) == [power, 0, d[2], d[3], d[4], d[5]]
    ensures Started(d, PortCommand("a", Odd, power)) == [0, power, d[2], d[3], d[4], d[5]]
    ensures Started(d, PortCommand("b", Even, power)) == [d[0], d[1], power, 0, d[4], d[5]]
    ensures Started(d, PortCommand("b", Odd, power)) == [d[0], d[1], 0, power, d[4], d[5]]
    ensures Started(d, PortCommand("c", Even, power)) == [d[0], d[1], d[2], d[3], power, 0]
    ensures Started(d, PortCommand("c", Odd, power)) == [d[0], d[1], d[2], d[3], 0, power]
    ensures Stopped(d, "a") == [0, 0, d[2], d[3], d[4], d[5]]
    ensures Stopped(d, "b") == [d[0], d[1], 0, 0, d[4], d[5]]
    ensures Stopped(d, "c") == [d[0], d[1], d[2], d[3], 0, 0]
  {
    var six: string, four: string := "6", "d";
    assert six[0] == '6' && four[0] == 'd' && six[..0] == "" && Number(six) == 6;
  }

  /** A single output takes the power whatever the direction, and all others stay. */
  lemma SingleIs(d: Duties, n: nat, direction: Direction, power: byte, i: nat)
    requires n < 6 && i < 6
    ensures Known([FIGURES[n]])
    ensures Started(d, PortCommand([FIGURES[n]], direction, power))[i] == if i == n then power else d[i]
    ensures Stopped(d, [FIGURES[n]])[i] == if i == n then 0 else d[i]
  {
    FigureNames("", n);
    FigureIs(n);
    assert "" + [FIGURES[n]] == [FIGURES[n]];
    assert [FIGURES[n]][0] == FIGURES[n];
  }

  // ---- One port at a time: what each command means ----

  function Started(d: Duties, cmd: PortCommand): Duties
    requires Known(cmd.port)
  {
    if PairIndices(cmd.port).Some? then
      var (even, odd) := PairIndices(cmd.port).value;
      if cmd.direction == Even then d[even := cmd.power][odd := 0] else d[even := 0][odd := cmd.power]
    else d[OutputIndex(cmd.port).value := cmd.power]
  }

  function Stopped(d: Duties, port: string): Duties
    requires Known(port)
  {
    if PairIndices(port).Some? then
      var (even, odd) := PairIndices(port).value;
      d[even := 0][odd := 0]
    else d[OutputIndex(port).value := 0]
  }

  function StartedAll(d: Duties, cmds: seq<PortCommand>): Duties
    requires forall i :: 0 <= i < |cmds| ==> Known(cmds[i].port)
  {
    if cmds == [] then d else Started(StartedAll(d, cmds[..|cmds| - 1]), cmds[|cmds| - 1])
  }

  function StoppedAll(d: Duties, ports: seq<string>): Duties
    requires forall i :: 0 <= i < |ports| ==> Known(ports[i])
  {
    if ports == [] then d else Stopped(StoppedAll(d, ports[..|ports| - 1]), ports[|ports| - 1])
  }

  // ---- Masked frames ----

  function Bit(i: nat): bv8
    requires i < OUTPUTS
  {
    1 << i
  }

  predicate Has(mask: bv8, i: nat)
    requires i < OUTPUTS
  {
    mask & Bit(i) != 0
  }

  /** Number of selected outputs below `n`. */
  function Rank(mask: bv8, n: nat): (r: nat)
    requires n <= OUTPUTS
    ensures r <= n
  {
    if n == 0 then 0 else Rank(mask, n - 1) + if Has(mask, n - 1) then 1 else 0
  }

  /** What the firmware does: the duties go to the selected outputs in ascending order, the others stay. */
  function Masked(d: Duties, mask: bv8, duties: seq<byte>): Duties
    requires |duties| == Rank(mask, OUTPUTS)
  {
    var r := seq(OUTPUTS, i requires 0 <= i < OUTPUTS => MaskedAt(d, mask, duties, i));
    r
  }

  function MaskedAt(d: Duties, mask: bv8, duties: seq<byte>, i: nat): byte
    requires |duties| == Rank(mask, OUTPUTS) && i < OUTPUTS
  {
    RankGrows(mask, i, OUTPUTS);
    if Has(mask, i) then duties[Rank(mask, i)] else d[i]
  }

  lemma {:induction false} RankGrows(mask: bv8, i: nat, n: nat)
    requires i <= n <= OUTPUTS
    ensures Rank(mask, i) <= Rank(mask, n)
    ensures i < n && Has(mask, i) ==> Rank(mask, i) < Rank(mask, n)
    decreases n - i
  {
    hide Has;
    if i < n {
      RankGrows(mask, i + 1, n);
    }
  }

  /** The duties of the selected outputs below `n`. */
  function Selected(mask: bv8, duty: Duties, n: nat): (r: seq<byte>)
    requires n <= OUTPUTS
    ensures |r| == Rank(mask, n)
  {
    if n == 0 then [] else Selected(mask, duty, n - 1) + if Has(mask, n - 1) then [duty[n - 1]] else []
  }

  lemma {:induction false} SelectedAt(mask: bv8, duty: Duties, n: nat, i: nat)
    requires i < n <= OUTPUTS && Has(mask, i)
    ensures Rank(mask, i) < Rank(mask, n) && Selected(mask, duty, n)[Rank(mask, i)] == duty[i]
    decreases n
  {
    hide Has;
    RankGrows(mask, i, n);
    if i < n - 1 {
      SelectedAt(mask, duty, n - 1, i);
    }
  }

  /** Sending the selected duties: selected outputs take them, the others stay. */
  lemma MaskedSelected(d: Duties, mask: bv8, duty: Duties, i: nat)
    requires i < OUTPUTS
    ensures Masked(d, mask, Selected(mask, duty, OUTPUTS))[i] == if Has(mask, i) then duty[i] else d[i]
  {
    hide Has;
    if Has(mask, i) {
      SelectedAt(mask, duty, OUTPUTS, i);
    }
  }

  lemma SetBit(mask: bv8, i: nat, j: nat)
    requires i < OUTPUTS && j < OUTPUTS
    ensures Has(mask | Bit(i), j) <==> Has(mask, j) || i == j
  {
    BitsDiffer(i, j);
    var m, a, b := mask, Bit(i), Bit(j);
    assert (m | a) & b == (m & b) | (a & b);
  }

  lemma BitsDiffer(i: nat, j: nat)
    requires i < OUTPUTS && j < OUTPUTS
    ensures Bit(i) & Bit(j) != 0 <==> i == j
  {
    assert Bit(0) == 1 && Bit(1) == 2 && Bit(2) == 4 && Bit(3) == 8 && Bit(4) == 16 && Bit(5) == 32;
  }

  lemma NoBit(j: nat)
    requires j < OUTPUTS
    ensures !Has(0, j)
  {
  }

  // ---- The adapter ----

  datatype Result = Ok | UnknownPort(port: string)

  class InterfaceAAdapter {
    /** What the six outputs of the device are driven with. */
    var outputs: Duties
    var framesSent: nat

    constructor ()
      ensures outputs == [0, 0, 0, 0, 0, 0] && framesSent == 0
    {
      outputs, framesSent := [0, 0, 0, 0, 0, 0], 0;
    }

    method SetOutputsMasked(mask: bv8, duties: seq<byte>)
      requires |duties| == Rank(mask, OUTPUTS)
      modifies this
      ensures outputs == Masked(old(outputs), mask, duties) && framesSent == old(framesSent) + 1
    {
      outputs := Masked(outputs, mask, duties);
      framesSent := framesSent + 1;
    }

    method StartPort(cmd: PortCommand) returns (r: Result)
      modifies this
      ensures r == if Known(cmd.port) then Ok else UnknownPort(cmd.port)
      ensures r.Ok? ==> outputs == Started(old(outputs), cmd) && framesSent == old(framesSent) + 1
      ensures !r.Ok? ==> outputs == old(outputs) && framesSent == old(framesSent)
    {
      hide OutputIndex, PairIndices;
      var pair := PairIndices(cmd.port);
      if pair.Some? {
        var (even, odd) := pair.value;
        var (dEven, dOdd) := if cmd.direction == Even then (cmd.power, 0) else (0, cmd.power);
        PairMask(outputs, even, dEven, dOdd);
        SetOutputsMasked(Bit(even) | Bit(odd), [dEven, dOdd]);
      } else {
        var idx := OutputIndex(cmd.port);
        if idx.None? {
          return UnknownPort(cmd.port);
        }
        SingleMask(outputs, idx.value, cmd.power);
        SetOutputsMasked(Bit(idx.value), [cmd.power]);
      }
      r := Ok;
    }

    method StopPort(port: string) returns (r: Result)
      modifies this
      ensures r == if Known(port) then Ok else UnknownPort(port)
      ensures r.Ok? ==> outputs == Stopped(old(outputs), port) && framesSent == old(framesSent) + 1
      ensures !r.Ok? ==> outputs == old(outputs) && framesSent == old(framesSent)
    {
      hide OutputIndex, PairIndices;
      var pair := PairIndices(port);
      if pair.Some? {
        var (even, odd) := pair.value;
        PairMask(outputs, even, 0, 0);
        SetOutputsMasked(Bit(even) | Bit(odd), [0, 0]);
      } else {
        var idx := OutputIndex(port);
        if idx.None? {
          return UnknownPort(port);
        }
        SingleMask(outputs, idx.value, 0);
        SetOutputsMasked(Bit(idx.value), [0]);
      }
      r := Ok;
    }

    /**
     * All commands in one frame, which leaves the outputs as the commands one after the other would; an unknown
     * port stops the batch before anything is sent.
     */
    method StartPorts(commands: seq<PortCommand>) returns (r: Result)
      modifies this
      ensures r.Ok? <==> forall i :: 0 <= i < |commands| ==> Known(commands[i].port)
      ensures r.Ok? ==> outputs == StartedAll(old(outputs), commands)
      ensures r.Ok? ==> framesSent == old(framesSent) + if commands == [] then 0 else 1
      ensures !r.Ok? ==> outputs == old(outputs) && framesSent == old(framesSent)
    {
      hide Known, Started, Has, Masked, Selected;
      if |commands| == 0 {
        return Ok;
      }
      var mask: bv8 := 0;
      var duty: Duties := [0, 0, 0, 0, 0, 0];
      forall j | 0 <= j < OUTPUTS ensures !Has(mask, j) { NoBit(j); }
      for n := 0 to |commands|
        invariant outputs == old(outputs) && framesSent == old(framesSent)
        invariant forall i :: 0 <= i < n ==> Known(commands[i].port)
        invariant forall j :: 0 <= j < OUTPUTS ==>
          StartedAll(outputs, commands[..n])[j] == if Has(mask, j) then duty[j] else outputs[j]
      {
        assert commands[..n + 1][..n] == commands[..n];
        var added := Add(commands[n], mask, duty);
        if added.None? {
          return UnknownPort(commands[n].port);
        }
        AddedStarts(outputs, StartedAll(outputs, commands[..n]), commands[n], mask, duty, added.value.0, added.value.1);
        mask, duty := added.value.0, added.value.1;
      }
      assert commands[..|commands|] == commands;
      var values := SelectedValues(mask, duty);
      forall j | 0 <= j < OUTPUTS ensures Masked(outputs, mask, values)[j] == StartedAll(outputs, commands)[j] {
        MaskedSelected(outputs, mask, duty, j);
      }
      assert Masked(outputs, mask, values) == StartedAll(outputs, commands);
      SetOutputsMasked(mask, values);
      r := Ok;
    }

    method StopPorts(ports: seq<string>) returns (r: Result)
      modifies this
      ensures r.Ok? <==> forall i :: 0 <= i < |ports| ==> Known(ports[i])
      ensures r.Ok? ==> outputs == StoppedAll(old(outputs), ports)
      ensures r.Ok? ==> framesSent == old(framesSent) + if ports == [] then 0 else 1
      ensures !r.Ok? ==> outputs == old(outputs) && framesSent == old(framesSent)
    {
      hide OutputIndex, PairIndices, Has, Masked, Selected, Bit;
      if |ports| == 0 {
        return Ok;
      }
      var mask: bv8 := 0;
      forall j | 0 <= j < OUTPUTS ensures !Has(mask, j) { NoBit(j); }
      for n := 0 to |ports|
        invariant forall i :: 0 <= i < n ==> Known(ports[i])
        invariant forall j :: 0 <= j < OUTPUTS ==>
          StoppedAll(outputs, ports[..n])[j] == if Has(mask, j) then 0 else outputs[j]
      {
        var port := ports[n];
        assert ports[..n + 1][..n] == ports[..n];
        var pair := PairIndices(port);
        if pair.Some? {
          var (even, odd) := pair.value;
          forall j | 0 <= j < OUTPUTS ensures Has(mask | Bit(even) | Bit(odd), j) <==> Has(mask, j) || j == even || j == odd {
            SetBit(mask, even, j);
            SetBit(mask | Bit(even), odd, j);
          }
          mask := mask | Bit(even) | Bit(odd);
        } else {
          var idx := OutputIndex(port);
          if idx.None? {
            return UnknownPort(port);
          }
          forall j | 0 <= j < OUTPUTS ensures Has(mask | Bit(idx.value), j) <==> Has(mask, j) || j == idx.value {
            SetBit(mask, idx.value, j);
          }
          mask := mask | Bit(idx.value);
        }
      }
      assert ports[..|ports|] == ports;
      var values := seq(Rank(mask, OUTPUTS), _ => 0 as byte);
      ZerosSelected(mask, OUTPUTS);
      forall j | 0 <= j < OUTPUTS ensures Masked(outputs, mask, values)[j] == StoppedAll(outputs, ports)[j] {
        MaskedSelected(outputs, mask, [0, 0, 0, 0, 0, 0], j);
      }
      assert Masked(outputs, mask, values) == StoppedAll(outputs, ports);
      SetOutputsMasked(mask, values);
      r := Ok;
    }
  }

  /** What one command of a batch adds to the mask and the duties. */
  method Add(cmd: PortCommand, mask: bv8, duty: Duties) returns (r: Option<(bv8, Duties)>)
    ensures r.Some? <==> Known(cmd.port)
    ensures r.Some? ==> forall j :: 0 <= j < OUTPUTS ==> (Has(r.value.0, j) <==> Has(mask, j) || Drives(cmd.port, j))
    ensures r.Some? ==> forall j :: 0 <= j < OUTPUTS ==> r.value.1[j] == Started(duty, cmd)[j]
  {
    hide OutputIndex, PairIndices, Has, Bit;
    var pair := PairIndices(cmd.port);
    if pair.Some? {
      var (even, odd) := pair.value;
      var (dEven, dOdd) := if cmd.direction == Even then (cmd.power, 0) else (0, cmd.power);
      forall j | 0 <= j < OUTPUTS ensures Has(mask | Bit(even) | Bit(odd), j) <==> Has(mask, j) || j == even || j == odd {
        SetBit(mask, even, j);
        SetBit(mask | Bit(even), odd, j);
      }
      r := Some((mask | Bit(even) | Bit(odd), duty[even := dEven][odd := dOdd]));
    } else {
      var idx := OutputIndex(cmd.port);
      if idx.None? {
        return None;
      }
      forall j | 0 <= j < OUTPUTS ensures Has(mask | Bit(idx.value), j) <==> Has(mask, j) || j == idx.value {
        SetBit(mask, idx.value, j);
      }
      r := Some((mask | Bit(idx.value), duty[idx.value := cmd.power]));
    }
  }

  /** The outputs that a port stands for. */
  predicate Drives(port: string, j: nat)
    requires Known(port)
  {
    if PairIndices(port).Some? then j == PairIndices(port).value.0 || j == PairIndices(port).value.1
    else j == OutputIndex(port).value
  }

  lemma AddedStarts(before: Duties, now: Duties, cmd: PortCommand, mask: bv8, duty: Duties, mask': bv8, duty': Duties)
    requires Known(cmd.port)
    requires forall j :: 0 <= j < OUTPUTS ==> now[j] == if Has(mask, j) then duty[j] else before[j]
    requires forall j :: 0 <= j < OUTPUTS ==> (Has(mask', j) <==> Has(mask, j) || Drives(cmd.port, j))
    requires forall j :: 0 <= j < OUTPUTS ==> duty'[j] == Started(duty, cmd)[j]
    ensures forall j :: 0 <= j < OUTPUTS ==> Started(now, cmd)[j] == if Has(mask', j) then duty'[j] else before[j]
  {
    hide OutputIndex, PairIndices, Has;
  }

  /** The filter over the six outputs. */
  method SelectedValues(mask: bv8, duty: Duties) returns (values: seq<byte>)
    ensures values == Selected(mask, duty, OUTPUTS)
  {
    hide Has;
    values := [];
    for i := 0 to OUTPUTS
      invariant values == Selected(mask, duty, i)
    {
      if Has(mask, i) {
        values := values + [duty[i]];
      }
    }
  }

  lemma {:induction false} ZerosSelected(mask: bv8, n: nat)
    requires n <= OUTPUTS
    ensures seq(Rank(mask, n), _ => 0 as byte) == Selected(mask, [0, 0, 0, 0, 0, 0], n)
  {
    hide Has;
    if n > 0 {
      ZerosSelected(mask, n - 1);
    }
  }

  lemma SingleMask(d: Duties, i: nat, v: byte)
    requires i < OUTPUTS
    ensures Rank(Bit(i), OUTPUTS) == 1 && Masked(d, Bit(i), [v]) == d[i := v]
  {
    hide Has, Masked;
    var duty := d[i := v];
    OnlyBit(i, OUTPUTS);
    forall j | 0 <= j < OUTPUTS ensures Has(Bit(i), j) <==> i == j { HasBit(i, j); }
    SelectedAt(Bit(i), duty, OUTPUTS, i);
    assert Selected(Bit(i), duty, OUTPUTS) == [v];
    forall j | 0 <= j < OUTPUTS ensures Masked(d, Bit(i), [v])[j] == duty[j] {
      MaskedSelected(d, Bit(i), duty, j);
    }
  }

  lemma HasBit(i: nat, j: nat)
    requires i < OUTPUTS && j < OUTPUTS
    ensures Has(Bit(i), j) <==> i == j
  {
    BitsDiffer(i, j);
  }

  lemma {:induction false} OnlyBit(i: nat, n: nat)
    requires i < OUTPUTS && n <= OUTPUTS
    ensures Rank(Bit(i), n) == if i < n then 1 else 0
  {
    hide Has;
    if n > 0 {
      OnlyBit(i, n - 1);
      HasBit(i, n - 1);
    }
  }

  lemma {:induction false} TwoBits(i: nat, n: nat)
    requires i + 1 < OUTPUTS && n <= OUTPUTS
    ensures Rank(Bit(i) | Bit(i + 1), n) == if n <= i then 0 else if n == i + 1 then 1 else 2
  {
    hide Has, Bit;
    if n > 0 {
      TwoBits(i, n - 1);
      SetBit(Bit(i), i + 1, n - 1);
      HasBit(i, n - 1);
    }
  }

  lemma PairMask(d: Duties, even: nat, a: byte, b: byte)
    requires even + 1 < OUTPUTS
    ensures Rank(Bit(even) | Bit(even + 1), OUTPUTS) == 2
    ensures Masked(d, Bit(even) | Bit(even + 1), [a, b]) == d[even := a][even + 1 := b]
  {
    hide Has, Masked, Bit;
    var mask := Bit(even) | Bit(even + 1);
    var duty := d[even := a][even + 1 := b];
    forall n | 0 <= n <= OUTPUTS ensures Rank(mask, n) == if n <= even then 0 else if n == even + 1 then 1 else 2 { TwoBits(even, n); }
    forall j | 0 <= j < OUTPUTS ensures Has(mask, j) <==> j == even || j == even + 1 {
      SetBit(Bit(even), even + 1, j);
      HasBit(even, j);
    }
    SelectedAt(mask, duty, OUTPUTS, even);
    SelectedAt(mask, duty, OUTPUTS, even + 1);
    assert Selected(mask, duty, OUTPUTS) == [a, b];
    forall j | 0 <= j < OUTPUTS ensures Masked(d, mask, [a, b])[j] == duty[j] {
      MaskedSelected(d, mask, duty, j);
    }
  }
}
