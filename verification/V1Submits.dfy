/** V1 submits from the miner's side: what the texts of a submit come to, and which submits leave no trace. */
module V1Submits {
  import opened Bytes
  import opened Wrappers
  import opened Ledger
  import opened MiningState
  import opened Nonces
  import opened ShareHandler
  import Hex
  import ShareRuns

  lemma {:induction false} NoPrefix(s: string)
    requires Hex.AllHex(s)
    ensures WithoutPrefix(s) == s
  {
    if |s| >= 2 {
      assert Hex.IsDigit(s[1]);
      NoPrefix(s[1..]);
    }
  }

  lemma PrefixGone(s: string)
    ensures WithoutPrefix("0x" + s) == s
  {
    assert ("0x" + s)[2..] == s;
  }

  /** The miner's own text of its part of a nonce. */
  function NoncePart(y: string, prefixed: bool): string {
    if prefixed then "0x" + y else y
  }

  /** y is a miner's part under the extranonce x. */
  ghost predicate Part(x: string, y: string) {
    Hex.AllHex(x) && |x| <= 6 && Hex.AllHex(y) && |y| <= 16 - |x| && (x == "" ==> y != "")
  }

  /** The nonce it stands for: x * 16^(16-2s) + y. */
  ghost function OwnNonce(x: string, y: string): (n: u64)
    requires Part(x, y)
    ensures ParseV1SubmitNonce(x, y) == Some(n)
  {
    PartRead(x, y);
    Hex.Value(x) * Pow(16, 16 - |x|) + Hex.Value(y)
  }

  lemma PartRead(x: string, y: string)
    requires Part(x, y)
    ensures var n := Hex.Value(x) * Pow(16, 16 - |x|) + Hex.Value(y);
      n < 0x1_0000_0000_0000_0000 && ParseV1SubmitNonce(x, y) == Some(n)
  {
    hide ParseV1SubmitNonce, Pow, Hex.Value;
    if x == "" {
      NoDigits();
      PlainNonce(y);
    } else {
      CompletedNonce(x, y);
    }
  }

  lemma NoDigits()
    ensures Hex.Value("") == 0
  {
  }

  lemma OwnNonceRead(x: string, y: string, prefixed: bool)
    requires Part(x, y)
    ensures ParseV1SubmitNonce(x, WithoutPrefix(NoncePart(y, prefixed))) == Some(OwnNonce(x, y))
  {
    hide ParseV1SubmitNonce, WithoutPrefix, OwnNonce, Hex.AllHex;
    NoPrefix(y);
    PrefixGone(y);
  }

  /** A submit whose texts are read as an id of a live job and a nonce. */
  lemma TextsJudged(s: State, who: Identity, x: string, params: seq<Param>, id: int, n: u64, added: seq<Block>,
                    diff: Option<Diff>, w: Surroundings)
    requires |params| >= 3 && params[1].Text? && params[2].Text? && ParseInt64(params[1].s) == Some(id)
    requires ParseV1SubmitNonce(x, WithoutPrefix(params[2].s)) == Some(n) && Lookup(added, id).Some?
    ensures HandleV1(s, who, x, params, added, diff, w) == Handle(s, who, id, n, Lookup(added, id), diff, w)
  {
    hide Handle, Lookup, ParseInt64, ParseV1SubmitNonce, WithoutPrefix;
  }

  /** A miner with extranonce x that submits its part y for a live job is judged for that job and for the nonce
      x * 16^(16-2s) + y, whatever its first parameter, a "0x", or further parameters. */
  lemma MinersSubmit(s: State, who: Identity, x: string, first: Param, id: int, y: string, prefixed: bool,
                     rest: seq<Param>, added: seq<Block>, diff: Option<Diff>, w: Surroundings)
    requires Part(x, y)
    requires -0x8000_0000_0000_0000 <= id < 0x8000_0000_0000_0000 && Lookup(added, id).Some?
    ensures HandleV1(s, who, x, [first, Text(DecimalInt(id)), Text(NoncePart(y, prefixed))] + rest, added, diff, w) ==
            Handle(s, who, id, OwnNonce(x, y), Lookup(added, id), diff, w)
  {
    JobIdRoundTrip(id);
    OwnNonceRead(x, y, prefixed);
    hide HandleV1, Handle, Lookup, ParseInt64, ParseV1SubmitNonce, WithoutPrefix, DecimalInt, OwnNonce, NoncePart, Part;
    var params := [first, Text(DecimalInt(id)), Text(NoncePart(y, prefixed))] + rest;
    TextsJudged(s, who, x, params, id, OwnNonce(x, y), added, diff, w);
  }

  /** A submit for an id that reaches no job is one stale share, whatever else it says. */
  lemma UnknownJobIsStale(s: State, who: Identity, x: string, first: Param, id: int, third: Param, rest: seq<Param>,
                          added: seq<Block>, diff: Option<Diff>, w: Surroundings)
    requires -0x8000_0000_0000_0000 <= id < 0x8000_0000_0000_0000 && Lookup(added, id).None?
    ensures HandleV1(s, who, x, [first, Text(DecimalInt(id)), third] + rest, added, diff, w) ==
            Outcome(s.(books := Book(s.books, who, Counts(0, 0, 1, 0))), Ok(Stale))
  {
    JobIdRoundTrip(id);
    hide Lookup, ParseInt64, DecimalInt, Claim, StatsKey, Added;
  }

  /** The text of the third parameter, without a "0x", is no 64-bit hexadecimal number. */
  ghost predicate BadNonce(x: string, third: Param) {
    third.Other? ||
    var t := WithoutPrefix(third.s);
    !Hex.AllHex(t) || Hex.Value(t) >= 0x1_0000_0000_0000_0000 || (x == "" && t == "")
  }

  /** Too few parameters, an id that is no 64-bit decimal text, or, for a live job only, a bad nonce. */
  ghost predicate Malformed(x: string, params: seq<Param>, added: seq<Block>) {
    || |params| < 3 || params[1].Other? || ParseInt64(params[1].s).None?
    || (Lookup(added, ParseInt64(params[1].s).value).Some? && BadNonce(x, params[2]))
  }

  /** No share that is judged is answered Bad without being counted. */
  lemma JudgedLeavesTrace(s: State, who: Identity, id: int, nonce: u64, job: Option<Block>, diff: Option<Diff>,
                          w: Surroundings)
    ensures Handle(s, who, id, nonce, job, diff, w) != Outcome(s, Ok(Bad))
  {
    if job.Some? {
      var sub := Submission(id, nonce, job.value, diff, w.pow(job.value, nonce), w.reply);
      hide Process, Claim, StatsKey;
      ShareRuns.OneMove(s, who, sub);
    }
  }

  /** A submit is answered Bad without a trace exactly when it is malformed; any other is judged. */
  lemma NoTraceExactly(s: State, who: Identity, x: string, params: seq<Param>, added: seq<Block>, diff: Option<Diff>,
                       w: Surroundings)
    requires Hex.AllHex(x) && |x| <= 6
    ensures var o := HandleV1(s, who, x, params, added, diff, w);
      && (o == Outcome(s, Ok(Bad)) <==> Malformed(x, params, added))
      && (!Malformed(x, params, added) ==>
            var id := ParseInt64(params[1].s).value; exists n :: o == Handle(s, who, id, n, Lookup(added, id), diff, w))
  {
    hide Handle, Lookup, ParseInt64, ParseV1SubmitNonce, WithoutPrefix;
    if |params| >= 3 && params[1].Text? && ParseInt64(params[1].s).Some? {
      var id := ParseInt64(params[1].s).value;
      if Lookup(added, id).None? {
        JudgedLeavesTrace(s, who, id, 0, None, diff, w);
      } else if params[2].Text? {
        var t := WithoutPrefix(params[2].s);
        RefusedNonce(x, t);
        if ParseV1SubmitNonce(x, t).Some? {
          JudgedLeavesTrace(s, who, id, ParseV1SubmitNonce(x, t).value, Lookup(added, id), diff, w);
        }
      }
    }
  }
}
