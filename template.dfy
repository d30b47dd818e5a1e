/** The placeholder substitution that turns the command-line options into the BPF
    program text.

    The program text is modelled as a sequence of tokens: the four placeholders
    `FILTER_PORT`, `FILTER_DPORT`, `FILTER_SPORT` and `SAMPLING`, the guard statements
    that may replace them, and `Code` tokens standing for every other stretch of C.
    `str.replace` replaces every occurrence of its first argument. */
module Template {
  import opened Bytes
  import opened Wrappers
  import opened Packet
  import opened Filters

  datatype Token =
    | FilterPortSlot
    | FilterDportSlot
    | FilterSportSlot
    | SamplingSlot
      /** `if (pkt_tuple.sport != p && pkt_tuple.dport != p) { return 0; }` */
    | PortGuard(port: u16)
      /** `if (pkt_tuple.dport != p) { return 0; }` */
    | DportGuard(dport: u16)
      /** `if (pkt_tuple.sport != p) { return 0; }` */
    | SportGuard(sport: u16)
      /** `if ((time << (64-s) >> (64-s)) != ((0x01 << s) - 1)) { return 0;}` */
    | SampleGuard(bits: SampleBits)
    | Code(fragment: nat)

  predicate IsSlot(x: Token)
  {
    x.FilterPortSlot? || x.FilterDportSlot? || x.FilterSportSlot? || x.SamplingSlot?
  }

  /** The three port placeholders as they stand in every handler. */
  function Site(): seq<Token>
  {
    [FilterPortSlot, FilterDportSlot, FilterSportSlot]
  }

  /** `bpf_text` before substitution: `SAMPLING` once, in stage 1 after reading the
      clock, then the three port placeholders in each of the four handlers. */
  function BpfText(): seq<Token>
  {
    [Code(0), SamplingSlot, Code(1)] + Site() + [Code(2)] + Site() + [Code(3)] + Site()
      + [Code(4)] + Site() + [Code(5)]
  }

  /** `text.replace(slot, repl)`. */
  function Replace(text: seq<Token>, slot: Token, repl: seq<Token>): (r: seq<Token>)
    ensures slot !in repl ==> slot !in r
  {
    if text == [] then [] else ReplaceToken(text[0], slot, repl) + Replace(text[1..], slot, repl)
  }

  /** What `replace` leaves in place of one token. */
  function ReplaceToken(x: Token, slot: Token, repl: seq<Token>): seq<Token>
  {
    if x == slot then repl else [x]
  }

  // ---------------------------------------------------------------------------
  // A one-pass reference: what ends up in place of each placeholder

  /** The tokens each placeholder stands for after substitution. */
  datatype Fill = Fill(port: seq<Token>, dport: seq<Token>, sport: seq<Token>, sampling: seq<Token>)

  /** The fill that leaves every placeholder in place. */
  function Unfilled(): Fill
  {
    Fill([FilterPortSlot], [FilterDportSlot], [FilterSportSlot], [SamplingSlot])
  }

  function Expand(x: Token, f: Fill): seq<Token>
  {
    match x
    case FilterPortSlot => f.port
    case FilterDportSlot => f.dport
    case FilterSportSlot => f.sport
    case SamplingSlot => f.sampling
    case _ => [x]
  }

  /** The text with every placeholder replaced by its fill, in one pass. */
  function Instantiate(text: seq<Token>, f: Fill): seq<Token>
  {
    if text == [] then [] else Expand(text[0], f) + Instantiate(text[1..], f)
  }

  /** Replacing `slot` by `repl` in a fill: every part that is still exactly the
      placeholder `slot` becomes `repl`. */
  function Retarget(f: Fill, slot: Token, repl: seq<Token>): Fill
  {
    Fill(if f.port == [slot] then repl else f.port,
         if f.dport == [slot] then repl else f.dport,
         if f.sport == [slot] then repl else f.sport,
         if f.sampling == [slot] then repl else f.sampling)
  }

  /** Each part of the fill either is the placeholder `slot` or does not contain it. */
  predicate Separated(f: Fill, slot: Token)
  {
    && (f.port == [slot] || slot !in f.port)
    && (f.dport == [slot] || slot !in f.dport)
    && (f.sport == [slot] || slot !in f.sport)
    && (f.sampling == [slot] || slot !in f.sampling)
  }

  /** The guards the options call for, each in place of its own placeholder. */
  function Guards(o: Options): Fill
  {
    Fill(if o.port.Some? then [PortGuard(o.port.value)] else [],
         if o.dport.Some? then [DportGuard(o.dport.value)] else [],
         if o.sport.Some? then [SportGuard(o.sport.value)] else [],
         if o.sample.Some? then [SampleGuard(o.sample.value)] else [])
  }

  /** What the substitution as written leaves in place of each placeholder: without
      `--port`, `FILTER_PORT` stays and `FILTER_SPORT` is erased whatever `--sport` says. */
  function AsWrittenFill(o: Options): Fill
  {
    Fill(if o.port.Some? then [PortGuard(o.port.value)] else [FilterPortSlot],
         if o.dport.Some? then [DportGuard(o.dport.value)] else [],
         if o.port.Some? && o.sport.Some? then [SportGuard(o.sport.value)] else [],
         if o.sample.Some? then [SampleGuard(o.sample.value)] else [])
  }

  // ---------------------------------------------------------------------------
  // Replacement and instantiation

  lemma {:induction false} ReplaceConcat(a: seq<Token>, b: seq<Token>, slot: Token, repl: seq<Token>)
    ensures Replace(a + b, slot, repl) == Replace(a, slot, repl) + Replace(b, slot, repl)
  {
    if a != [] {
      var h := ReplaceToken(a[0], slot, repl);
      assert (a + b)[0] == a[0] && (a + b)[1..] == a[1..] + b;
      ReplaceConcat(a[1..], b, slot, repl);
      calc {
        Replace(a + b, slot, repl);
        h + Replace(a[1..] + b, slot, repl);
        h + (Replace(a[1..], slot, repl) + Replace(b, slot, repl));
        (h + Replace(a[1..], slot, repl)) + Replace(b, slot, repl);
      }
    } else {
      assert a + b == b;
    }
  }

  /** Replacing a token that does not occur changes nothing. */
  lemma {:induction false} ReplaceAbsent(text: seq<Token>, slot: Token, repl: seq<Token>)
    requires slot !in text
    ensures Replace(text, slot, repl) == text
  {
    if text != [] {
      ReplaceAbsent(text[1..], slot, repl);
    }
  }

  lemma {:induction false} InstantiateConcat(a: seq<Token>, b: seq<Token>, f: Fill)
    ensures Instantiate(a + b, f) == Instantiate(a, f) + Instantiate(b, f)
  {
    if a != [] {
      assert (a + b)[0] == a[0] && (a + b)[1..] == a[1..] + b;
      InstantiateConcat(a[1..], b, f);
      calc {
        Instantiate(a + b, f);
        Expand(a[0], f) + Instantiate(a[1..] + b, f);
        Expand(a[0], f) + (Instantiate(a[1..], f) + Instantiate(b, f));
        (Expand(a[0], f) + Instantiate(a[1..], f)) + Instantiate(b, f);
      }
    } else {
      assert a + b == b;
    }
  }

  /** With every placeholder left in place, instantiation is the identity. */
  lemma {:induction false} InstantiateUnfilled(text: seq<Token>)
    ensures Instantiate(text, Unfilled()) == text
  {
    if text != [] {
      InstantiateUnfilled(text[1..]);
      assert text == [text[0]] + text[1..];
    }
  }

  /** Replacing `slot` in one part of a fill that is either exactly `slot` or free of it. */
  lemma ReplacePart(part: seq<Token>, slot: Token, repl: seq<Token>)
    requires part == [slot] || slot !in part
    ensures Replace(part, slot, repl) == if part == [slot] then repl else part
  {
    if part == [slot] {
      assert Replace([slot], slot, repl) == repl + Replace([], slot, repl);
    } else {
      ReplaceAbsent(part, slot, repl);
    }
  }

  /** Replacing `slot` in what one token expands to is expanding it with the
      retargeted fill. */
  lemma ReplaceExpand(x: Token, f: Fill, slot: Token, repl: seq<Token>)
    requires IsSlot(slot) && Separated(f, slot)
    ensures Replace(Expand(x, f), slot, repl) == Expand(x, Retarget(f, slot, repl))
  {
    match x
    case FilterPortSlot => ReplacePart(f.port, slot, repl);
    case FilterDportSlot => ReplacePart(f.dport, slot, repl);
    case FilterSportSlot => ReplacePart(f.sport, slot, repl);
    case SamplingSlot => ReplacePart(f.sampling, slot, repl);
    case _ => ReplacePart([x], slot, repl);
  }

  /** One `replace` call on an instantiated text is the instantiation with the
      retargeted fill. This is what makes a chain of `replace` calls a single pass. */
  lemma {:induction false} ReplaceInstantiated(text: seq<Token>, f: Fill, slot: Token, repl: seq<Token>)
    requires IsSlot(slot) && Separated(f, slot)
    ensures Replace(Instantiate(text, f), slot, repl) == Instantiate(text, Retarget(f, slot, repl))
  {
    if text != [] {
      ReplaceConcat(Expand(text[0], f), Instantiate(text[1..], f), slot, repl);
      ReplaceExpand(text[0], f, slot, repl);
      ReplaceInstantiated(text[1..], f, slot, repl);
    }
  }

  // ---------------------------------------------------------------------------
  // The substitution chain

  /** One statement `bpf_text = bpf_text.replace(slot, repl)` of the chain, on a text
      that is the template instantiated with `f`: the result is the template
      instantiated with `f` retargeted. */
  method ReplaceStep(bpfText: seq<Token>, text: seq<Token>, ghost f: Fill, slot: Token, repl: seq<Token>)
    returns (text': seq<Token>, ghost f': Fill)
    requires IsSlot(slot) && Separated(f, slot) && text == Instantiate(bpfText, f)
    ensures f' == Retarget(f, slot, repl) && text' == Instantiate(bpfText, f')
  {
    ReplaceInstantiated(bpfText, f, slot, repl);
    text' := Replace(text, slot, repl);
    f' := Retarget(f, slot, repl);
  }

  /** The substitution chain as written: the `else` of the `--port` test erases
      `FILTER_SPORT`, not `FILTER_PORT`. */
  method SubstituteAsWritten(o: Options, bpfText: seq<Token>) returns (text: seq<Token>)
    ensures text == Instantiate(bpfText, AsWrittenFill(o))
  {
    InstantiateUnfilled(bpfText);
    ghost var f := Unfilled();
    text := bpfText;
    if o.port.Some? {
      text, f := ReplaceStep(bpfText, text, f, FilterPortSlot, [PortGuard(o.port.value)]);
    } else {
      text, f := ReplaceStep(bpfText, text, f, FilterSportSlot, []);
    }
    if o.sport.Some? {
      text, f := ReplaceStep(bpfText, text, f, FilterSportSlot, [SportGuard(o.sport.value)]);
    } else {
      text, f := ReplaceStep(bpfText, text, f, FilterSportSlot, []);
    }
    if o.dport.Some? {
      text, f := ReplaceStep(bpfText, text, f, FilterDportSlot, [DportGuard(o.dport.value)]);
    } else {
      text, f := ReplaceStep(bpfText, text, f, FilterDportSlot, []);
    }
    if o.sample.Some? {
      text, f := ReplaceStep(bpfText, text, f, SamplingSlot, [SampleGuard(o.sample.value)]);
    } else {
      text, f := ReplaceStep(bpfText, text, f, SamplingSlot, []);
    }
    assert f == AsWrittenFill(o);
  }

  /** The substitution chain with the `else` of the `--port` test erasing
      `FILTER_PORT`: every placeholder gets the guard its option calls for. */
  method Substitute(o: Options, bpfText: seq<Token>) returns (text: seq<Token>)
    ensures text == Instantiate(bpfText, Guards(o))
  {
    InstantiateUnfilled(bpfText);
    ghost var f := Unfilled();
    text := bpfText;
    if o.port.Some? {
      text, f := ReplaceStep(bpfText, text, f, FilterPortSlot, [PortGuard(o.port.value)]);
    } else {
      text, f := ReplaceStep(bpfText, text, f, FilterPortSlot, []);
    }
    if o.sport.Some? {
      text, f := ReplaceStep(bpfText, text, f, FilterSportSlot, [SportGuard(o.sport.value)]);
    } else {
      text, f := ReplaceStep(bpfText, text, f, FilterSportSlot, []);
    }
    if o.dport.Some? {
      text, f := ReplaceStep(bpfText, text, f, FilterDportSlot, [DportGuard(o.dport.value)]);
    } else {
      text, f := ReplaceStep(bpfText, text, f, FilterDportSlot, []);
    }
    if o.sample.Some? {
      text, f := ReplaceStep(bpfText, text, f, SamplingSlot, [SampleGuard(o.sample.value)]);
    } else {
      text, f := ReplaceStep(bpfText, text, f, SamplingSlot, []);
    }
    assert f == Guards(o);
  }

  // ---------------------------------------------------------------------------
  // What the substituted program text says

  /** The port guards that end up at one handler's filter site, in order. */
  function SiteText(f: Fill): seq<Token>
  {
    f.port + f.dport + f.sport
  }

  /** A left-over placeholder is an undeclared identifier, which the C compiler rejects. */
  predicate Compiles(text: seq<Token>)
  {
    forall x :: x in text ==> !IsSlot(x)
  }

  lemma InstantiateOne(x: Token, f: Fill)
    ensures Instantiate([x], f) == Expand(x, f)
  {
    assert [x][1..] == [];
  }

  lemma InstantiateSite(f: Fill)
    ensures Instantiate(Site(), f) == SiteText(f)
  {
    var s := Site();
    assert s[1..][1..][1..] == [];
    assert Instantiate(s[1..][1..], f) == f.sport;
  }

  /** After substitution `bpf_text` holds the sampling fill once, in stage 1, and the
      same port guards, in the order port, dport, sport, in each of the four handlers. */
  lemma {:induction false} SubstitutedText(f: Fill)
    ensures Instantiate(BpfText(), f)
         == [Code(0)] + f.sampling + [Code(1)] + SiteText(f) + [Code(2)] + SiteText(f)
            + [Code(3)] + SiteText(f) + [Code(4)] + SiteText(f) + [Code(5)]
  {
    var head: seq<Token> := [Code(0), SamplingSlot, Code(1)];
    InstantiateOne(Code(0), f);
    InstantiateOne(SamplingSlot, f);
    InstantiateOne(Code(1), f);
    InstantiateConcat([Code(0)], [SamplingSlot], f);
    InstantiateConcat([Code(0), SamplingSlot], [Code(1)], f);
    assert head == [Code(0), SamplingSlot] + [Code(1)];
    InstantiateSite(f);
    InstantiateOne(Code(2), f);
    InstantiateOne(Code(3), f);
    InstantiateOne(Code(4), f);
    InstantiateOne(Code(5), f);
    var t := BpfText();
    assert t == head + Site() + [Code(2)] + Site() + [Code(3)] + Site() + [Code(4)] + Site() + [Code(5)];
    InstantiateConcat(head + Site() + [Code(2)] + Site() + [Code(3)] + Site() + [Code(4)] + Site(), [Code(5)], f);
    InstantiateConcat(head + Site() + [Code(2)] + Site() + [Code(3)] + Site() + [Code(4)], Site(), f);
    InstantiateConcat(head + Site() + [Code(2)] + Site() + [Code(3)] + Site(), [Code(4)], f);
    InstantiateConcat(head + Site() + [Code(2)] + Site() + [Code(3)], Site(), f);
    InstantiateConcat(head + Site() + [Code(2)] + Site(), [Code(3)], f);
    InstantiateConcat(head + Site() + [Code(2)], Site(), f);
    InstantiateConcat(head + Site(), [Code(2)], f);
    InstantiateConcat(head, Site(), f);
  }

  /** With the `else` branch corrected, no placeholder is left for any options, and the
      text holds exactly the guards the options configure. */
  lemma SubstitutionComplete(o: Options)
    ensures Compiles(Instantiate(BpfText(), Guards(o)))
    ensures forall p: u16 :: PortGuard(p) in Instantiate(BpfText(), Guards(o)) <==> o.port == Some(p)
    ensures forall p: u16 :: DportGuard(p) in Instantiate(BpfText(), Guards(o)) <==> o.dport == Some(p)
    ensures forall p: u16 :: SportGuard(p) in Instantiate(BpfText(), Guards(o)) <==> o.sport == Some(p)
    ensures forall s: SampleBits :: SampleGuard(s) in Instantiate(BpfText(), Guards(o)) <==> o.sample == Some(s)
  {
    var g := Guards(o);
    var text := Instantiate(BpfText(), g);
    forall x | x in text ensures !IsSlot(x) {
      TokenOfSubstitutedText(g, x);
    }
    forall p: u16 ensures PortGuard(p) in text <==> o.port == Some(p) {
      TokenOfSubstitutedText(g, PortGuard(p));
    }
    forall p: u16 ensures DportGuard(p) in text <==> o.dport == Some(p) {
      TokenOfSubstitutedText(g, DportGuard(p));
    }
    forall p: u16 ensures SportGuard(p) in text <==> o.sport == Some(p) {
      TokenOfSubstitutedText(g, SportGuard(p));
    }
    forall s: SampleBits ensures SampleGuard(s) in text <==> o.sample == Some(s) {
      TokenOfSubstitutedText(g, SampleGuard(s));
    }
  }

  /** The tokens of the substituted text: the fixed code, the sampling fill and the
      port guards, and nothing else. */
  lemma TokenOfSubstitutedText(f: Fill, x: Token)
    ensures x in Instantiate(BpfText(), f) <==>
      x in [Code(0), Code(1), Code(2), Code(3), Code(4), Code(5)] || x in f.sampling
      || x in f.port || x in f.dport || x in f.sport
  {
    SubstitutedText(f);
  }

  /** As written, with `--port` given the chain does what the options say; without it,
      `FILTER_PORT` is left in the text (so the program does not compile) and no
      `--sport` guard is ever inserted. */
  lemma AsWrittenPortQuirk(o: Options)
    ensures o.port.Some? ==> Instantiate(BpfText(), AsWrittenFill(o)) == Instantiate(BpfText(), Guards(o))
    ensures o.port.None? ==> FilterPortSlot in Instantiate(BpfText(), AsWrittenFill(o))
    ensures o.port.None? ==> !Compiles(Instantiate(BpfText(), AsWrittenFill(o)))
    ensures o.port.None? ==> forall p: u16 :: SportGuard(p) !in Instantiate(BpfText(), AsWrittenFill(o))
  {
    var f := AsWrittenFill(o);
    TokenOfSubstitutedText(f, FilterPortSlot);
    forall p: u16 ensures o.port.None? ==> SportGuard(p) !in Instantiate(BpfText(), f) {
      TokenOfSubstitutedText(f, SportGuard(p));
    }
  }

  // ---------------------------------------------------------------------------
  // What the guard statements do when a handler runs

  /** Whether the handler runs past guard `x`, for the tuple `t` at time `time`; any
      other token is not a guard. */
  predicate GuardPasses(x: Token, t: PacketTuple, time: u64)
  {
    match x
    case PortGuard(p) => !(t.sport != p && t.dport != p)
    case DportGuard(p) => !(t.dport != p)
    case SportGuard(p) => !(t.sport != p)
    case SampleGuard(s) => SampleAccepts(time, s)
    case _ => true
  }

  /** The handler runs past every guard in `text`. */
  predicate RunsThrough(text: seq<Token>, t: PacketTuple, time: u64)
  {
    forall i :: 0 <= i < |text| ==> GuardPasses(text[i], t, time)
  }

  /** The guards the corrected substitution puts at each handler's filter site pass
      exactly when the configured port checks do, and the stage-1 sampling guard passes
      exactly when the sampling check does: the handlers below use `PortsPass` and
      `Sampled` for them. */
  lemma GuardsMeanOptions(o: Options, t: PacketTuple, time: u64)
    ensures RunsThrough(SiteText(Guards(o)), t, time) <==> PortsPass(o, t)
    ensures RunsThrough(Guards(o).sampling, t, time) <==> Sampled(o, time)
  {
    var site := SiteText(Guards(o));
    if o.sample.Some? {
      assert Guards(o).sampling[0] == SampleGuard(o.sample.value);
    }
    if !PortsPass(o, t) {
      if o.port.Some? && !(t.sport == o.port.value || t.dport == o.port.value) {
        assert site[0] == PortGuard(o.port.value);
      } else if o.dport.Some? && t.dport != o.dport.value {
        assert site[|Guards(o).port|] == DportGuard(o.dport.value);
      } else {
        assert site[|site| - 1] == SportGuard(o.sport.value);
      }
    }
  }
}
