/** The numbers and fields of a bounded tool result. */
module ObservationRules {
  import opened Results
  import opened JsonText
  import opened ObservationText
  import Texts

  // The first n characters.
  function Front(s: string, n: nat): string {
    if |s| <= n then s else s[..n]
  }

  /**
   * A shortened result keeps call, turn, name, outcome and error code, quotes the front of its data
   * beside a notice, has at most 1,000 characters of summary and no arguments, and says that it is cut.
   */
  lemma {:induction false} TrimmedMeans(o: Observation, excerpt: string)
    ensures Trimmed(o, excerpt) ==
            Observation(o.callId, o.turn, o.name, o.ok, o.errorCode, Front(o.summary, 1000),
                        Object([("excerpt", Text(excerpt)), ("notice", Text("工具结果已截断，必要时定向重读"))]), Object([]), true)
  {
  }

  /** The text has the nine fields of the schema, in its order. */
  lemma {:induction false} SerializedMeans(o: Observation)
    ensures Serialized(o) ==
            Dumps(Object([("tool_call_id", Text(o.callId)),
                          ("model_turn", if o.turn.Some? then Number(Texts.Decimal(o.turn.value)) else Nothing),
                          ("name", Text(o.name)), ("ok", Flag(o.ok)),
                          ("error_code", if o.errorCode.Some? then Text(o.errorCode.value) else Nothing),
                          ("summary", Text(o.summary)), ("data", o.data), ("arguments", o.arguments),
                          ("truncated", Flag(o.truncated))]))
  {
    var d := Payload(o);
    assert d.members == [(Key(0), Field(o, 0)), (Key(1), Field(o, 1)), (Key(2), Field(o, 2)), (Key(3), Field(o, 3)), (Key(4), Field(o, 4)),
                         (Key(5), Field(o, 5)), (Key(6), Field(o, 6)), (Key(7), Field(o, 7)), (Key(8), Field(o, 8))];
  }

  /** The first excerpt has up to 10,000 characters of the data's JSON, and each further one half as many. */
  lemma {:induction false} AttemptMeans(o: Observation, n: nat)
    ensures Attempt(o, n) == Serialized(Trimmed(o, Front(Dumps(o.data), Limit(n))))
    ensures Limit(0) == 10_000 && Limit(n + 1) == Limit(n) / 2
  {
  }

  /** The limit is 20,000 characters, and the loop ends exactly when the rest fits without any excerpt. */
  lemma {:induction false} LimitMeans(o: Observation, text: string, halvings: nat)
    ensures (exists n :: |Attempt(o, n)| <= 20_000) <==> |Serialized(Trimmed(o, ""))| <= 20_000
    ensures IsBounded(o, text, halvings) ==>
              && |text| <= 20_000
              && (|Serialized(o)| <= 20_000 ==> text == Serialized(o))
              && (|Serialized(o)| > 20_000 ==> text == Attempt(o, halvings) && forall n :: 0 <= n < halvings ==> |Attempt(o, n)| > 20_000)
  {
    LoopEndsIffFixedPartFits(o);
    if n :| |Attempt(o, n)| <= 20_000 {
      assert Fits(Attempt(o, n));
    }
    if n :| Fits(Attempt(o, n)) {
      assert |Attempt(o, n)| <= 20_000;
    }
    if IsBounded(o, text, halvings) {
      forall n | 0 <= n < halvings && |Serialized(o)| > 20_000
        ensures |Attempt(o, n)| > 20_000
      {
        assert !Fits(Attempt(o, n));
      }
    }
  }

  /** A read shows the longest front of at most 12,000 characters whose JSON has at most 14,000. */
  lemma {:induction false} VisibleMeans(body: string, limit: nat)
    ensures IsVisibleLimit(body, limit) <==>
            && limit <= |body| && limit <= 12_000 && |Quoted(body[..limit])| <= 14_000
            && forall n :: limit < n <= |body| && n <= 12_000 ==> |Quoted(body[..n])| > 14_000
  {
    forall n | 0 <= n <= |body|
      ensures ExcerptFits(body, n) <==> |Quoted(body[..n])| <= 14_000
    {
    }
  }
}
