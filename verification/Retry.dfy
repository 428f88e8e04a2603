/**
 Retrying a completion (internal/llm/resilience.go over internal/llm/gemini.go): two layers retry,
 and the caller must never see output twice.

 What each upstream call streams, and when the caller walks away, are parameters.
*/
module Retry {
  import opened Wrappers

  /** Why a call failed, as far as retrying asks. */
  datatype Failure = CallerCanceled | DeadlineExceeded | Transport | Overloaded | CacheMissing | Other

  /** One upstream call: the texts it streams, and how it ends. */
  datatype Stream = Stream(texts: seq<string>, err: Option<Failure>)

  datatype Error = Provider(failure: Failure) | Cancelled(last: Failure)

  predicate Retryable(f: Failure) {
    f.DeadlineExceeded? || f.Transport? || f.Overloaded?
  }

  /** The texts that carry output. */
  function Chunks(texts: seq<string>): seq<string> {
    if texts == [] then []
    else Chunks(texts[..|texts| - 1]) + if texts[|texts| - 1] == "" then [] else [texts[|texts| - 1]]
  }

  function Concat(chunks: seq<string>): string {
    if chunks == [] then "" else Concat(chunks[..|chunks| - 1]) + chunks[|chunks| - 1]
  }

  lemma {:induction false} NothingEmitted(texts: seq<string>)
    ensures Concat(Chunks(texts)) == "" <==> Chunks(texts) == []
    ensures forall i :: 0 <= i < |Chunks(texts)| ==> Chunks(texts)[i] != ""
  {
    if texts != [] {
      NothingEmitted(texts[..|texts| - 1]);
      var c := Chunks(texts);
      assert c != [] ==> c[|c| - 1] != "";
    }
  }

  lemma EmptyChunks()
    ensures Chunks([]) == [] && Concat([]) == ""
  {
  }

  lemma ChunksSnoc(texts: seq<string>, text: string)
    ensures Chunks(texts + [text]) == Chunks(texts) + if text == "" then [] else [text]
  {
    assert (texts + [text])[..|texts|] == texts;
  }

  lemma ConcatSnoc(chunks: seq<string>, text: string)
    ensures Concat(chunks + [text]) == Concat(chunks) + text
  {
    assert (chunks + [text])[..|chunks|] == chunks;
  }

  /** The service behind the adapter: what each call streams, how many were made. */
  class Service {
    const script: nat -> Stream
    var made: nat

    constructor (script: nat -> Stream)
      ensures this.script == script && made == 0
    {
      this.script := script;
      made := 0;
    }

    ghost function Last(): Stream
      reads this
      requires made > 0
    {
      script(made - 1)
    }
  }

  /** The caller's chunk callback: everything it has been given. */
  class Sink {
    var seen: seq<string>

    constructor ()
      ensures seen == []
    {
      seen := [];
    }
  }

  class GeminiAdapter {
    const service: Service
    var caches: map<string, string>   // cached content, by system prompt

    constructor (service: Service)
      ensures this.service == service && caches == map[]
    {
      this.service := service;
      caches := map[];
    }

    // One upstream call, each text with output forwarded as it comes.
    method StreamCall(sink: Sink?) returns (accumulated: string, err: Option<Failure>)
      requires sink == null || (sink as object) != service
      modifies service, sink
      ensures service.made == old(service.made) + 1
      ensures err == service.Last().err && accumulated == Concat(Chunks(service.Last().texts))
      ensures sink != null ==> sink.seen == old(sink.seen) + Chunks(service.Last().texts)
    {
      hide Chunks, Concat;
      EmptyChunks();
      var call := service.script(service.made);
      service.made := service.made + 1;
      accumulated := "";
      ghost var before := if sink == null then [] else sink.seen;
      assert call.texts[..0] == [];
      for i := 0 to |call.texts|
        invariant service.made == old(service.made) + 1
        invariant accumulated == Concat(Chunks(call.texts[..i]))
        invariant sink != null ==> sink.seen == before + Chunks(call.texts[..i])
      {
        var text := call.texts[i];
        ChunksSnoc(call.texts[..i], text);
        assert call.texts[..i + 1] == call.texts[..i] + [text];
        assert Chunks(call.texts[..i]) + [] == Chunks(call.texts[..i]);
        if text != "" {
          accumulated := accumulated + text;
          ConcatSnoc(Chunks(call.texts[..i]), text);
          if sink != null { sink.seen := sink.seen + [text]; }
        }
      }
      assert call.texts[..|call.texts|] == call.texts;
      err := call.err;
    }

    // Names cached content when it has some; when the service has lost it, and nothing has been
    // emitted, asks once more with the prompt inline.
    method Complete(system: string, created: Option<string>, sink: Sink?) returns (out: string, err: Option<Failure>)
      requires sink == null || (sink as object) != service
      modifies this`caches, service, sink
      ensures old(service.made) < service.made <= old(service.made) + 2
      ensures err == service.Last().err && out == Concat(Chunks(service.Last().texts))
      ensures forall k :: old(service.made) <= k < service.made - 1 ==>
                Chunks(service.script(k).texts) == [] && service.script(k).err == Some(CacheMissing)
      ensures sink != null ==> sink.seen == old(sink.seen) + Chunks(service.Last().texts)
    {
      hide Chunks, Concat;
      var cached := system in caches;
      if !cached && created.Some? {
        caches := caches[system := created.value];
        cached := true;
      }
      out, err := StreamCall(sink);
      NothingEmitted(service.Last().texts);
      if err.Some? && cached && out == "" && err.value.CacheMissing? {
        caches := caches - {system};
        out, err := StreamCall(sink);
      }
    }
  }

  // ---------- the wrapper ----------

  datatype Policy = Policy(maxRetries: nat)

  /** The retry budget by provider: none where the provider's own library retries. */
  function PolicyFor(provider: string): Policy {
    if provider == "gemini" || provider == "ollama" then Policy(2)
    else if provider == "claudecli" || provider == "geminicli" then Policy(1)
    else Policy(0)
  }

  // Three attempts at most where nothing else retries, two where a process is started, one where the
  // provider's own library retries.
  lemma Attempts(provider: string)
    ensures PolicyFor(provider).maxRetries + 1 ==
      if provider in {"gemini", "ollama"} then 3 else if provider in {"claudecli", "geminicli"} then 2 else 1
  {
  }

  /** An attempt that ended after this many calls was tried again: it failed for a reason that says
      nothing about the request, and the caller had seen nothing of it. */
  ghost predicate Retried(script: nat -> Stream, made: nat, watched: bool) {
    made > 0 &&
    var call := script(made - 1);
    call.err.Some? && call.err.value in {DeadlineExceeded, Transport, Overloaded} && (watched ==> Chunks(call.texts) == [])
  }

  /** What the caller is told of the k-th attempt when it is the last: that it has left, if it had; the
      failure, if its output was seen, the budget is spent or the request itself is at fault. */
  ghost function Verdict(last: Stream, k: nat, maxRetries: nat, left: nat -> bool, watched: bool): Option<Error> {
    if last.err.None? then None
    else if left(2 * k) then Some(Cancelled(last.err.value))
    else if (watched && Chunks(last.texts) != []) || k == maxRetries || last.err.value in {CallerCanceled, CacheMissing, Other}
    then Some(Provider(last.err.value))
    else Some(Cancelled(last.err.value))
  }

  class ResilientAdapter {
    const inner: GeminiAdapter
    const policy: Policy

    constructor (inner: GeminiAdapter, policy: Policy)
      ensures this.inner == inner && this.policy == policy
    {
      this.inner, this.policy := inner, policy;
    }

    // Retries only failures that are worth it and that the caller has seen nothing of. All the
    // chunks the caller sees come from one upstream call, the last; they make up the returned text;
    // and the calls stay within the budget of both layers. `ends` has, for each attempt, how many
    // calls had been made when it was over.
    method Complete(system: string, created: nat -> Option<string>, left: nat -> bool, sink: Sink?)
        returns (out: string, err: Option<Error>, ghost ends: seq<nat>)
      requires sink == null || (sink as object) != inner.service
      modifies inner`caches, inner.service, sink
      ensures old(inner.service.made) < inner.service.made <= old(inner.service.made) + 2 * (policy.maxRetries + 1)
      ensures policy == PolicyFor("gemini") ==> inner.service.made <= old(inner.service.made) + 6
      ensures out == Concat(Chunks(inner.service.Last().texts))
      ensures sink != null ==> sink.seen == old(sink.seen) + Chunks(inner.service.Last().texts)
      ensures sink != null ==> forall k :: old(inner.service.made) <= k < inner.service.made - 1 ==> Chunks(inner.service.script(k).texts) == []
      ensures 1 <= |ends| <= policy.maxRetries + 1 && ends[|ends| - 1] == inner.service.made
      ensures forall i :: 0 <= i < |ends| - 1 ==> Retried(inner.service.script, ends[i], sink != null) && !left(2 * i) && !left(2 * i + 1)
      ensures err == Verdict(inner.service.Last(), |ends| - 1, policy.maxRetries, left, sink != null)
      ensures err.Some? && err.value.Cancelled? ==> left(2 * (|ends| - 1)) || left(2 * (|ends| - 1) + 1)
    {
      hide Chunks, Concat;
      var service := inner.service;
      var attempt := 0;
      ends := [];
      ghost var start := service.made;
      while true
        invariant 0 <= attempt <= policy.maxRetries && start <= service.made <= start + 2 * attempt
        invariant |ends| == attempt && (attempt > 0 ==> ends[attempt - 1] == service.made)
        invariant forall i :: 0 <= i < attempt ==> Retried(service.script, ends[i], sink != null) && !left(2 * i) && !left(2 * i + 1)
        invariant sink != null ==> sink.seen == old(sink.seen) && forall k :: start <= k < service.made ==> Chunks(service.script(k).texts) == []
        decreases policy.maxRetries - attempt
      {
        var before := if sink == null then 0 else |sink.seen|;
        var failure;
        out, failure := inner.Complete(system, created(attempt), sink);
        ends := ends + [service.made];
        if failure.None? { return out, None, ends; }
        if left(2 * attempt) { return out, Some(Cancelled(failure.value)), ends; }
        var emitted := sink != null && |sink.seen| > before;
        if emitted || attempt >= policy.maxRetries || !Retryable(failure.value) {
          return out, Some(Provider(failure.value)), ends;
        }
        if left(2 * attempt + 1) { return out, Some(Cancelled(failure.value)), ends; }
        attempt := attempt + 1;
      }
    }
  }

  // ---------- backing off ----------

  const BASE: int := 500_000_000      // nanoseconds
  const MAX: int := 8_000_000_000

  function Pow2(n: nat): (r: int)
    ensures r >= 1
  {
    if n == 0 then 1 else 2 * Pow2(n - 1)
  }

  /** A 64-bit value read as signed. */
  function Signed(v: int): int {
    var m := v % 0x1_0000_0000_0000_0000;
    if m >= 0x8000_0000_0000_0000 then m - 0x1_0000_0000_0000_0000 else m
  }

  /** BASE shifted left, in 64-bit arithmetic. */
  function Shifted(n: nat): int {
    Signed(BASE * Pow2(n))
  }

  function Delay(n: nat): int {
    var d := Shifted(n);
    if d > MAX || d <= 0 then MAX else d
  }

  /** The pause after attempt n, with a jitter drawn below half the delay. */
  function RetryBackoff(n: nat, jitter: nat): int {
    Delay(n) / 2 + jitter
  }

  lemma {:induction false} Pow2Add(a: nat, b: nat)
    ensures Pow2(a + b) == Pow2(a) * Pow2(b)
    decreases b
  {
    if b > 0 { Pow2Add(a, b - 1); }
  }

  lemma {:induction false} Pow2Grows(a: nat, b: nat)
    requires a <= b
    ensures Pow2(a) <= Pow2(b)
    decreases b
  {
    if a < b { Pow2Grows(a, b - 1); }
  }

  lemma Pow2Known()
    ensures Pow2(4) == 16 && Pow2(8) == 256 && Pow2(33) == 0x2_0000_0000 && Pow2(34) == 0x4_0000_0000 && Pow2(64) == 0x1_0000_0000_0000_0000
  {
    assert Pow2(4) == 16;
    assert Pow2(8) == 256;
    Pow2Add(8, 8);
    Pow2Add(16, 16);
    Pow2Add(32, 32);
    assert Pow2(33) == 2 * Pow2(32) && Pow2(34) == 2 * Pow2(33);
  }

  // A multiple of a divisor of the modulus stays one.
  lemma ModMultiple(k: int, m: int, q: int)
    requires m > 0 && q > 0 && k >= 0
    ensures (k * m) % (q * m) == (k % q) * m
  {
    var r := k % q;
    assert k == (k / q) * q + r;
    assert k * m == (k / q) * (q * m) + r * m by { assert ((k / q) * q + r) * m == (k / q) * (q * m) + r * m; }
    assert 0 <= r * m < q * m by { SmallerProduct(r, q, m); }
    ModUnique(k * m, q * m, k / q, r * m);
  }

  lemma SmallerProduct(r: int, q: int, m: int)
    requires 0 <= r < q && m > 0
    ensures 0 <= r * m < q * m
  {
    assert (q - r) * m > 0;
  }

  lemma ModUnique(x: int, d: int, a: int, r: int)
    requires d > 0 && x == a * d + r && 0 <= r < d
    ensures x % d == r
  {
    var a', r' := x / d, x % d;
    assert x == a' * d + r';
    DifferenceTimes(a, a', d);
    if a > a' { AtLeast(a - a', d); } else if a < a' { AtLeast(a' - a, d); }
  }

  lemma DifferenceTimes(a: int, b: int, d: int)
    ensures a * d - b * d == (a - b) * d && b * d - a * d == (b - a) * d
  {
  }

  lemma AtLeast(k: int, d: int)
    requires k >= 1 && d > 0
    ensures k * d >= d
  {
  }

  // BASE is 1953125 times 2^8, so what the shift leaves after wrapping is a multiple of 2^(8 + n).
  lemma ShiftedMultiple(n: nat)
    requires 8 + n <= 64
    ensures (BASE * Pow2(n)) % 0x1_0000_0000_0000_0000 == (1953125 % Pow2(56 - n)) * Pow2(8 + n)
  {
    Pow2Known();
    Pow2Add(8, n);
    Pow2Add(56 - n, 8 + n);
    assert BASE * Pow2(n) == 1953125 * Pow2(8 + n);
    ModMultiple(1953125, Pow2(8 + n), Pow2(56 - n));
  }

  lemma ShiftedAllOut(n: nat)
    requires 8 + n > 64
    ensures (BASE * Pow2(n)) % 0x1_0000_0000_0000_0000 == 0
  {
    Pow2Known();
    Pow2Add(64, n - 56);
    Pow2Add(8, n);
    assert BASE * Pow2(n) == (1953125 * Pow2(n - 56)) * 0x1_0000_0000_0000_0000;
    ModUnique(BASE * Pow2(n), 0x1_0000_0000_0000_0000, 1953125 * Pow2(n - 56), 0);
  }

  lemma {:induction false} DelayBounds(n: nat)
    ensures BASE <= Delay(n) <= MAX
    ensures n <= 4 ==> Delay(n) == if n == 4 then MAX else BASE * Pow2(n)
    ensures n >= 4 ==> Delay(n) == MAX
  {
    Pow2Known();
    if n <= 3 {
      Pow2Grows(n, 3);
      assert Pow2(1) == 2 && Pow2(2) == 4 && Pow2(3) == 8;
    } else if n <= 25 {
      Pow2Grows(4, n);
      Pow2Grows(n, 34);
      assert BASE * Pow2(n) < 0x8000_0000_0000_0000;
    } else if n <= 56 {
      ShiftedMultiple(n);
      Pow2Grows(33, 8 + n);
      MultipleLarge(1953125 % Pow2(56 - n), Pow2(8 + n));
    } else {
      ShiftedAllOut(n);
    }
  }

  lemma MultipleLarge(k: int, m: int)
    requires k >= 0 && m >= 0x2_0000_0000
    ensures k * m == 0 || k * m > MAX
  {
    if k > 0 { assert k * m >= m; }
  }

  // Whatever the attempt, for all that the shift overflows, the pause is from a quarter of a second
  // up to, not including, eight seconds; and from the fifth attempt on the delay is the longest.
  lemma BackoffBounds(n: nat, jitter: nat)
    requires jitter < Delay(n) / 2
    ensures 250_000_000 <= RetryBackoff(n, jitter) < MAX
    ensures n >= 4 ==> 4_000_000_000 <= RetryBackoff(n, jitter)
  {
    DelayBounds(n);
  }
}
