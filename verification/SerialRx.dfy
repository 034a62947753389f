/**
 The serial receive virtualiser (serial/components/virt_rx.c): characters from the device go to the current client; the
 switch character, a number and a terminator select another client, and the switch character twice is the character
 itself.
 */
module SerialRx {
  import opened Sequences

  const MAX_DIGITS: nat := 4

  datatype Config = Config(switch: char, terminate: char, caps: seq<nat>)

  datatype Mode = Normal | Switched | Number

  /** digits is next_client up to next_client_index; queues are the characters in each client's queue. */
  datatype State = State(mode: Mode, digits: string, client: nat, queues: seq<string>)

  predicate IsDigit(c: char)
  {
    '0' <= c <= '9'
  }

  function DigitOf(c: char): nat
    requires IsDigit(c)
  {
    c as int - '0' as int
  }

  predicate AllDigits(s: string)
  {
    forall i :: 0 <= i < |s| ==> IsDigit(s[i])
  }

  /** The number a string of digits denotes. */
  function Value(s: string): nat
    requires AllDigits(s)
  {
    if s == [] then 0 else Value(s[..|s| - 1]) * 10 + DigitOf(s[|s| - 1])
  }

  /** sddf_atoi on a string of digits, which it ends at: the number, computed with the opposite sign. */
  method Atoi(s: string) returns (n: int)
    requires AllDigits(s)
    ensures n == Value(s)
  {
    var result: int, i := 0, 0;
    while i < |s|
      invariant 0 <= i <= |s| && AllDigits(s[..i]) && result == 0 - Value(s[..i])
    {
      var digit := DigitOf(s[i]);
      assert s[..i + 1][..i] == s[..i];
      result := result * 10;
      result := result - digit;
      i := i + 1;
    }
    assert s[..i] == s;
    n := -result;
  }

  /** A number in decimal notation, without leading zeros. */
  function Decimal(n: nat): string
  {
    (if n < 10 then [] else Decimal(n / 10)) + ["0123456789"[n % 10]]
  }

  lemma DigitsInOrder(d: nat)
    requires d < 10
    ensures IsDigit("0123456789"[d]) && DigitOf("0123456789"[d]) == d
  {
  }

  lemma ValuePush(s: string, c: char)
    requires AllDigits(s) && IsDigit(c)
    ensures AllDigits(s + [c]) && Value(s + [c]) == Value(s) * 10 + DigitOf(c)
  {
    assert (s + [c])[..|s|] == s;
  }

  /** It denotes the number. */
  lemma {:induction false} DecimalDenotes(n: nat)
    ensures AllDigits(Decimal(n)) && Value(Decimal(n)) == n && Decimal(n) != []
  {
    DigitsInOrder(n % 10);
    if n >= 10 {
      DecimalDenotes(n / 10);
    }
    ValuePush(if n < 10 then [] else Decimal(n / 10), "0123456789"[n % 10]);
  }

  /** Four digits are enough below ten thousand. */
  lemma DecimalShort(n: nat)
    requires n < 10000
    ensures |Decimal(n)| <= 4
  {
    assert n / 10 < 1000 && n / 10 / 10 < 100 && n / 10 / 10 / 10 < 10;
    assert |Decimal(n / 10 / 10)| <= 2;
  }

  predicate Shaped(cfg: Config, s: State)
  {
    && |s.queues| == |cfg.caps| && s.client < |cfg.caps|
    && |s.digits| <= MAX_DIGITS && AllDigits(s.digits)
    && (s.mode == Number <==> s.digits != [])
  }

  /** serial_enqueue_local: a character that does not fit is dropped. */
  function Push(q: string, cap: nat, c: char): string
  {
    if |q| < cap then q + [c] else q
  }

  function Deliver(cfg: Config, s: State, c: char): State
    requires Shaped(cfg, s)
  {
    s.(queues := s.queues[s.client := Push(s.queues[s.client], cfg.caps[s.client], c)])
  }

  /** reset_state. */
  function Reset(s: State): State
  {
    s.(mode := Normal, digits := [])
  }

  /** One character. */
  function Feed(cfg: Config, s: State, c: char): (s': State)
    requires Shaped(cfg, s)
    ensures Shaped(cfg, s')
  {
    match s.mode
    case Normal => if c == cfg.switch then s.(mode := Switched) else Deliver(cfg, s, c)
    case Switched =>
      if IsDigit(c) then s.(mode := Number, digits := [c])
      else if c == cfg.switch then Reset(Deliver(cfg, s, c))
      else Reset(s)
    case Number =>
      if c == cfg.terminate then
        if Value(s.digits) < |cfg.caps| then Reset(s.(client := Value(s.digits))) else Reset(s)
      else if |s.digits| < MAX_DIGITS && IsDigit(c) then s.(digits := s.digits + [c])
      else Reset(s)
  }

  function FeedAll(cfg: Config, s: State, input: string): (s': State)
    requires Shaped(cfg, s)
    ensures Shaped(cfg, s')
    decreases |input|
  {
    if input == [] then s else FeedAll(cfg, Feed(cfg, s, input[0]), input[1..])
  }

  /** It does not matter how the input is split over calls. */
  lemma {:induction false} SplitIrrelevant(cfg: Config, s: State, a: string, b: string)
    requires Shaped(cfg, s)
    ensures FeedAll(cfg, s, a + b) == FeedAll(cfg, FeedAll(cfg, s, a), b)
    decreases |a|
  {
    if a == [] {
      assert a + b == b;
    } else {
      assert (a + b)[1..] == a[1..] + b;
      SplitIrrelevant(cfg, Feed(cfg, s, a[0]), a[1..], b);
    }
  }

  lemma FeedLast(cfg: Config, s: State, a: string, c: char)
    requires Shaped(cfg, s)
    ensures FeedAll(cfg, s, a + [c]) == Feed(cfg, FeedAll(cfg, s, a), c)
  {
    SplitIrrelevant(cfg, s, a, [c]);
    var t := FeedAll(cfg, s, a);
    assert [c][1..] == [];
    assert FeedAll(cfg, t, [c]) == FeedAll(cfg, Feed(cfg, t, c), []);
  }

  // ---- Encoding -----------------------------------------------------------------------------------

  /** A client, by a number of one to four digits, and what it is to receive. */
  datatype Segment = Segment(number: string, payload: string)

  predicate Selects(cfg: Config, g: Segment)
  {
    0 < |g.number| <= MAX_DIGITS && AllDigits(g.number) && Value(g.number) < |cfg.caps|
  }

  predicate AllSelect(cfg: Config, gs: seq<Segment>)
  {
    forall g :: g in gs ==> Selects(cfg, g)
  }

  /** Switch characters doubled. */
  function Escape(cfg: Config, payload: string): string
  {
    if payload == [] then []
    else (if payload[0] == cfg.switch then [cfg.switch, cfg.switch] else [payload[0]]) + Escape(cfg, payload[1..])
  }

  function EncodeOne(cfg: Config, g: Segment): string
  {
    [cfg.switch] + g.number + [cfg.terminate] + Escape(cfg, g.payload)
  }

  function Encode(cfg: Config, gs: seq<Segment>): string
  {
    if gs == [] then [] else EncodeOne(cfg, gs[0]) + Encode(cfg, gs[1..])
  }

  /** Everything addressed to a client. */
  function PayloadOf(cfg: Config, gs: seq<Segment>, client: nat): string
    requires AllSelect(cfg, gs)
  {
    if gs == [] then []
    else
      assert Selects(cfg, gs[0]);
      (if Value(gs[0].number) == client then gs[0].payload else []) + PayloadOf(cfg, gs[1..], client)
  }

  /** The characters that control the virtualiser are not digits. */
  predicate Clear(cfg: Config)
  {
    !IsDigit(cfg.switch) && !IsDigit(cfg.terminate)
  }

  lemma {:induction false} FeedDigits(cfg: Config, s: State, ds: string)
    requires Shaped(cfg, s) && s.mode == Number && Clear(cfg) && AllDigits(ds) && |s.digits| + |ds| <= MAX_DIGITS
    ensures FeedAll(cfg, s, ds) == s.(digits := s.digits + ds)
    decreases |ds|
  {
    if ds == [] {
      assert s.digits + ds == s.digits;
    } else {
      var t := Feed(cfg, s, ds[0]);
      assert t == s.(digits := s.digits + [ds[0]]);
      FeedDigits(cfg, t, ds[1..]);
      assert s.digits + [ds[0]] + ds[1..] == s.digits + ds;
    }
  }

  lemma FeedNumber(cfg: Config, s: State, number: string)
    requires Shaped(cfg, s) && s.mode == Normal && Clear(cfg) && AllDigits(number) && 0 < |number| <= MAX_DIGITS
    ensures FeedAll(cfg, s, [cfg.switch] + number) == s.(mode := Number, digits := number)
  {
    var t := s.(mode := Number, digits := [number[0]]);
    assert [cfg.switch, number[0]] + number[1..] == [cfg.switch] + number;
    SplitIrrelevant(cfg, s, [cfg.switch, number[0]], number[1..]);
    FeedLast(cfg, s, [cfg.switch], number[0]);
    FeedLast(cfg, s, [], cfg.switch);
    assert [] + [cfg.switch] == [cfg.switch] && [cfg.switch] + [number[0]] == [cfg.switch, number[0]];
    assert FeedAll(cfg, s, [cfg.switch, number[0]]) == t;
    FeedDigits(cfg, t, number[1..]);
    assert [number[0]] + number[1..] == number;
  }

  /** The switch character, a number and the terminator select a client. */
  lemma FeedSelect(cfg: Config, s: State, number: string)
    requires Shaped(cfg, s) && s.mode == Normal && Clear(cfg) && Selects(cfg, Segment(number, []))
    ensures FeedAll(cfg, s, [cfg.switch] + number + [cfg.terminate]) == s.(client := Value(number))
  {
    FeedNumber(cfg, s, number);
    FeedLast(cfg, s, [cfg.switch] + number, cfg.terminate);
  }

  /** Every client that has a number of up to four digits can be selected by it, typed in decimal. */
  lemma DecimalSelects(cfg: Config, s: State, n: nat)
    requires Shaped(cfg, s) && s.mode == Normal && Clear(cfg) && n < |cfg.caps| && n < 10000
    ensures FeedAll(cfg, s, [cfg.switch] + Decimal(n) + [cfg.terminate]) == s.(client := n)
  {
    DecimalDenotes(n);
    DecimalShort(n);
    FeedSelect(cfg, s, Decimal(n));
  }

  /** A fifth digit is one too many: it is dropped, with those before it. */
  lemma FiveDigitsDropped(cfg: Config, s: State, number: string, d: char)
    requires Shaped(cfg, s) && s.mode == Normal && Clear(cfg) && AllDigits(number) && |number| == 4 && IsDigit(d)
    ensures FeedAll(cfg, s, [cfg.switch] + number + [d]) == s
  {
    FeedNumber(cfg, s, number);
    FeedLast(cfg, s, [cfg.switch] + number, d);
  }

  /** An escaped payload reaches the current client, if it fits. */
  lemma {:induction false} FeedPayload(cfg: Config, s: State, payload: string)
    requires Shaped(cfg, s) && s.mode == Normal && !IsDigit(cfg.switch)
             && |s.queues[s.client]| + |payload| <= cfg.caps[s.client]
    ensures FeedAll(cfg, s, Escape(cfg, payload)) == s.(queues := s.queues[s.client := s.queues[s.client] + payload])
    decreases |payload|
  {
    if payload == [] {
      assert s.queues[s.client] + payload == s.queues[s.client];
      assert s.queues[s.client := s.queues[s.client]] == s.queues;
    } else {
      var c, rest := payload[0], Escape(cfg, payload[1..]);
      var t := Deliver(cfg, s, c);
      if c == cfg.switch {
        SplitIrrelevant(cfg, s, [c, c], rest);
        FeedLast(cfg, s, [c], c);
        FeedLast(cfg, s, [], c);
        assert [] + [c] == [c] && [c] + [c] == [c, c];
        assert FeedAll(cfg, s, [c, c]) == t;
      } else {
        SplitIrrelevant(cfg, s, [c], rest);
        FeedLast(cfg, s, [], c);
        assert [] + [c] == [c];
      }
      FeedPayload(cfg, t, payload[1..]);
      assert s.queues[s.client] + [c] + payload[1..] == s.queues[s.client] + payload;
      assert t.queues[s.client := s.queues[s.client] + payload] == s.queues[s.client := s.queues[s.client] + payload];
    }
  }

  /** Doubling the switch character works, for every payload, exactly when it is not a digit. */
  lemma EscapingNeedsNonDigit(cfg: Config, s: State)
    requires Shaped(cfg, s) && s.mode == Normal && |s.queues[s.client]| < cfg.caps[s.client]
    ensures (forall payload: string :: |s.queues[s.client]| + |payload| <= cfg.caps[s.client] ==>
               FeedAll(cfg, s, Escape(cfg, payload)) ==
                 s.(queues := s.queues[s.client := s.queues[s.client] + payload]))
            <==> !IsDigit(cfg.switch)
  {
    if IsDigit(cfg.switch) {
      var c := cfg.switch;
      assert Escape(cfg, [c]) == [c, c];
      FeedLast(cfg, s, [c], c);
      FeedLast(cfg, s, [], c);
      assert [] + [c] == [c] && [c] + [c] == [c, c];
      assert FeedAll(cfg, s, Escape(cfg, [c])).mode == Number;
    } else {
      forall payload: string | |s.queues[s.client]| + |payload| <= cfg.caps[s.client]
        ensures FeedAll(cfg, s, Escape(cfg, payload))
                  == s.(queues := s.queues[s.client := s.queues[s.client] + payload])
      {
        FeedPayload(cfg, s, payload);
      }
    }
  }

  /** The client of the last segment, or the one before. */
  function LastClient(cfg: Config, gs: seq<Segment>, client: nat): nat
    requires AllSelect(cfg, gs)
  {
    if gs == [] then client
    else
      assert Selects(cfg, gs[0]);
      LastClient(cfg, gs[1..], Value(gs[0].number))
  }

  /**
   Whatever is encoded for whichever clients arrives: each client receives exactly its payloads, in order, provided they
   fit its queue.
   */
  lemma {:induction false} RoundTrip(cfg: Config, s: State, gs: seq<Segment>)
    requires Shaped(cfg, s) && s.mode == Normal && Clear(cfg)
    requires AllSelect(cfg, gs)
    requires forall c :: 0 <= c < |cfg.caps| ==> |s.queues[c]| + |PayloadOf(cfg, gs, c)| <= cfg.caps[c]
    ensures var t := FeedAll(cfg, s, Encode(cfg, gs));
            && t.mode == Normal && t.client == LastClient(cfg, gs, s.client)
            && forall c :: 0 <= c < |cfg.caps| ==> t.queues[c] == s.queues[c] + PayloadOf(cfg, gs, c)
    decreases |gs|
  {
    if gs == [] {
      assert forall c :: 0 <= c < |cfg.caps| ==> s.queues[c] + PayloadOf(cfg, gs, c) == s.queues[c];
    } else {
      var g, rest := gs[0], gs[1..];
      assert Selects(cfg, g);
      var client := Value(g.number);
      var selected := s.(client := client);
      var t := selected.(queues := s.queues[client := s.queues[client] + g.payload]);
      OneSegment(cfg, s, g);
      SplitIrrelevant(cfg, s, EncodeOne(cfg, g), Encode(cfg, rest));
      forall c | 0 <= c < |cfg.caps|
        ensures |t.queues[c]| + |PayloadOf(cfg, rest, c)| <= cfg.caps[c]
        ensures t.queues[c] + PayloadOf(cfg, rest, c) == s.queues[c] + PayloadOf(cfg, gs, c)
      {
        assert PayloadOf(cfg, gs, c) == (if client == c then g.payload else []) + PayloadOf(cfg, rest, c);
      }
      RoundTrip(cfg, t, rest);
    }
  }

  lemma OneSegment(cfg: Config, s: State, g: Segment)
    requires Shaped(cfg, s) && s.mode == Normal && Clear(cfg) && Selects(cfg, g)
    requires |s.queues[Value(g.number)]| + |g.payload| <= cfg.caps[Value(g.number)]
    ensures var client := Value(g.number);
            FeedAll(cfg, s, EncodeOne(cfg, g)) ==
              s.(client := client, queues := s.queues[client := s.queues[client] + g.payload])
  {
    var select := [cfg.switch] + g.number + [cfg.terminate];
    FeedSelect(cfg, s, g.number);
    SplitIrrelevant(cfg, s, select, Escape(cfg, g.payload));
    FeedPayload(cfg, s.(client := Value(g.number)), g.payload);
  }

  // ---- The handler ----------------------------------------------------------------------------------

  /** The queue of the current client with its local tail, and those of the others as published. */
  function WithLocal(mode: Mode, digits: string, client: nat, queues: seq<string>, local: string): State
    requires client < |queues|
  {
    State(mode, digits, client, queues[client := local])
  }

  class VirtRx {
    const cfg: Config
    var mode: Mode
    var digits: string         // next_client, next_client_index
    var client: nat            // current_client
    var queues: seq<string>    // what each client's shared tail makes visible
    var notified: set<nat>     // clients notified

    function Abs(): State
      reads this
    {
      State(mode, digits, client, queues)
    }

    ghost predicate Valid()
      reads this
    {
      Shaped(cfg, Abs())
    }

    constructor (config: Config)
      requires |config.caps| > 0
      ensures Valid() && cfg == config && mode == Normal && client == 0
              && forall c :: 0 <= c < |queues| ==> queues[c] == []
    {
      cfg, mode, digits, client, notified := config, Normal, [], 0, {};
      queues := Fill(|config.caps|, []);
    }

    /** Select another client: what the current one received is published, and announced if there is any. */
    method SwitchTo(number: nat, local: string, transferred: bool) returns (local': string)
      requires Valid() && number < |cfg.caps| && queues[client] <= local && (transferred <==> local != queues[client])
      modifies this`client, this`queues, this`notified
      ensures Valid() && client == number && queues == old(queues)[old(client) := local] && local' == queues[number]
      ensures Announced(old(queues), queues, old(notified), notified)
    {
      AnnouncedPublish(queues, client, local, notified);
      assert !transferred ==> queues[client := local] == queues;
      if transferred {
        queues := queues[client := local];
        notified := notified + {client};
      }
      client := number;
      local' := queues[client];
    }

    /** One character of the loop: local is the current client's queue up to the local tail. */
    method Take(c: char, local: string, transferred: bool) returns (local': string, transferred': bool)
      requires Valid() && queues[client] <= local && (transferred <==> local != queues[client])
      modifies this`mode, this`digits, this`client, this`queues, this`notified
      ensures Valid() && queues[client] <= local' && (transferred' <==> local' != queues[client])
      ensures WithLocal(mode, digits, client, queues, local')
              == Feed(cfg, old(WithLocal(mode, digits, client, queues, local)), c)
      ensures Announced(old(queues), queues, old(notified), notified)
    {
      local', transferred' := local, transferred;
      AnnouncedNothing(queues, notified);
      match mode {
        case Normal =>
          if c == cfg.switch {
            mode := Switched;
          } else if |local| < cfg.caps[client] {
            local', transferred' := local + [c], true;
          }
        case Switched =>
          if IsDigit(c) {
            digits := digits + [c];
            mode := Number;
          } else {
            if c == cfg.switch {
              if |local| < cfg.caps[client] {
                local', transferred' := local + [c], true;
              }
            }
            mode, digits := Normal, [];
          }
        case Number =>
          if c == cfg.terminate {
            var number := Atoi(digits);
            mode, digits := Normal, [];
            if 0 <= number < |cfg.caps| {
              local' := SwitchTo(number, local, transferred);
              transferred' := false;
              assert queues[client := local'] == queues;
            }
          } else if |digits| < MAX_DIGITS && IsDigit(c) {
            digits := digits + [c];
          } else {
            mode, digits := Normal, [];
          }
      }
    }

    /**
     rx_return, on everything the driver's queue yields during the call: the clients' queues are what feeding it
     character by character makes of them, and exactly the clients whose queue grew are notified.
     */
    method RxReturn(input: string)
      requires Valid()
      modifies this`mode, this`digits, this`client, this`queues, this`notified
      ensures Valid() && Abs() == FeedAll(cfg, old(Abs()), input)
      ensures Announced(old(queues), queues, old(notified), notified)
    {
      var local, transferred, i := queues[client], false, 0;
      assert queues[client := local] == queues && input[..0] == [];
      while i < |input|
        invariant 0 <= i <= |input| && Valid() && queues[client] <= local && (transferred <==> local != queues[client])
        invariant WithLocal(mode, digits, client, queues, local) == FeedAll(cfg, old(Abs()), input[..i])
        invariant Announced(old(queues), queues, old(notified), notified)
      {
        FeedLast(cfg, old(Abs()), input[..i], input[i]);
        assert input[..i] + [input[i]] == input[..i + 1];
        ghost var before, told := queues, notified;
        local, transferred := Take(input[i], local, transferred);
        AnnouncedTwice(old(queues), before, queues, old(notified), told, notified);
        i := i + 1;
      }
      assert input[..i] == input;
      AnnouncedPublish(queues, client, local, notified);
      AnnouncedTwice(old(queues), queues, queues[client := local], old(notified), notified,
                     if transferred then notified + {client} else notified);
      queues := queues[client := local];
      if transferred {
        notified := notified + {client};
      }
    }
  }

  function Grown(before: seq<string>, after: seq<string>): set<nat>
    requires |before| == |after|
  {
    set c: nat | c < |after| && before[c] != after[c]
  }

  /** Queues only grew, and exactly the clients whose queue grew have been notified. */
  ghost predicate Announced(before: seq<string>, after: seq<string>, notified0: set<nat>, notified: set<nat>)
  {
    && |before| == |after| && (forall c :: 0 <= c < |after| ==> before[c] <= after[c])
    && notified == notified0 + Grown(before, after)
  }

  lemma AnnouncedTwice(a: seq<string>, b: seq<string>, c: seq<string>, n0: set<nat>, n1: set<nat>, n2: set<nat>)
    requires Announced(a, b, n0, n1) && Announced(b, c, n1, n2)
    ensures Announced(a, c, n0, n2)
  {
  }

  lemma AnnouncedNothing(queues: seq<string>, n: set<nat>)
    ensures Announced(queues, queues, n, n)
  {
  }

  /** Publishing a local tail that moved announces its client. */
  lemma AnnouncedPublish(queues: seq<string>, client: nat, local: string, n: set<nat>)
    requires client < |queues| && queues[client] <= local
    ensures Announced(queues, queues[client := local], n, if local != queues[client] then n + {client} else n)
  {
  }
}
