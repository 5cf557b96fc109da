/** The vocabulary in which the engine's behaviour is observed: what its
    goroutines emit (frames written to the strip, timer waits, HTTP requests,
    animation ticks), how they end (including Go panics), and the oracles that
    stand for the world outside the program: context cancellation, `math/rand`
    and the frames the library animations paint. */
module Trace {
  import opened Pixarray

  /** Go run-time panics the engine can raise. */
  datatype Fault =
    | TypeAssertion      // `step.MetaInfo.(data.XMeta)` on a payload of another type
    | IndexOutOfRange    // `splits[1]`, `g.Colors[1]` on a too-short slice
    | DivideByZero       // `i % len(seq.Colors)` with no colours
    | IntnNonPositive    // `rand.Intn(n)` with `n <= 0`

  datatype Option<T> = None | Some(value: T)

  /** How a processor call ended: normally, by a panic, or not within the fuel
      it was given (the model then says nothing about what comes after). */
  datatype Status = Ok | Panicked(fault: Fault) | Exhausted

  /** The observable state of a `context.Context` over time: it is either never
      cancelled, or seen live by `polls` more checks and cancelled from then on. */
  datatype Cancellation = Never | After(polls: nat)

  /** Whether a check of `ctx.Done()` sees the context cancelled. */
  predicate IsCancelled(c: Cancellation) {
    c == After(0)
  }

  /** The context's state after one check. */
  function Tick(c: Cancellation): (d: Cancellation)
    ensures IsCancelled(c) ==> IsCancelled(d)
  {
    match c
    case Never => Never
    case After(n) => if n == 0 then After(0) else After(n - 1)
  }

  /** Once cancelled, a context stays cancelled however often it is checked. */
  lemma {:induction false} CancelledStays(c: Cancellation, k: nat)
    requires IsCancelled(c)
    ensures IsCancelled(Ticks(c, k))
    decreases k
  {
    if k > 0 {
      CancelledStays(Tick(c), k - 1);
    }
  }

  /** The context's state after `k` checks. */
  function Ticks(c: Cancellation, k: nat): Cancellation
    decreases k
  {
    if k == 0 then c else Ticks(Tick(c), k - 1)
  }

  /** A context cancelled after `n` live checks is seen live exactly `n` times. */
  lemma {:induction false} LiveExactlyPolls(n: nat, k: nat)
    ensures IsCancelled(Ticks(After(n), k)) <==> k >= n
    decreases k
  {
    if k > 0 {
      if n == 0 {
        CancelledStays(After(0), k);
      } else {
        LiveExactlyPolls(n - 1, k - 1);
      }
    }
  }

  /** The environment a goroutine runs in: its context, how many numbers it has
      drawn from `math/rand` so far, the fuel that bounds the otherwise
      unbounded repetitions (Loop steps and animation ticks), and the frames the
      library animations paint into the buffer. Those animations are foreign
      code, so `paint(k, i)` stands for the colour that the `k`-th frame painted
      during the play gives pixel `i`, and `painted` counts the frames so far. */
  datatype Env = Env(cancel: Cancellation, draws: nat, fuel: nat,
                     paint: (nat, nat) -> Pixel, painted: nat)

  /** An animation's `Start` or `NextStep` painting the buffer of `n` pixels:
      the next frame of the oracle, and the environment that has used it. */
  function Paint(env: Env, n: nat): (d: (seq<Pixel>, Env))
    ensures |d.0| == n
    ensures forall i :: 0 <= i < n ==> d.0[i] == env.paint(env.painted, i)
    ensures d.1 == env.(painted := env.painted + 1)
  {
    (seq(n, i requires 0 <= i < n => env.paint(env.painted, i)), env.(painted := env.painted + 1))
  }

  /** One check of `ctx.Done()`: the answer, and the environment after it. */
  function Poll(env: Env): (p: (bool, Env))
    ensures p.0 == IsCancelled(env.cancel)
    ensures p.1 == env.(cancel := Tick(env.cancel))
  {
    (IsCancelled(env.cancel), env.(cancel := Tick(env.cancel)))
  }

  /** `rand.Intn(n)` for `n > 0`: the oracle's `draws`-th number reduced to
      [0, n), and the environment with one more number drawn. */
  function Intn(rng: nat -> int, env: Env, n: int): (d: (int, Env))
    requires n > 0
    ensures 0 <= d.0 < n
    ensures d.1 == env.(draws := env.draws + 1)
  {
    (rng(env.draws) % n, env.(draws := env.draws + 1))
  }

  /** The library animations started by the tick-loop processors, with the
      parameters the engine passes to their constructors (durations in ms). */
  datatype Animation =
    | FadeTo(duration: int, color: Pixel)
    | KnightRider(duration: int, width: int)
    | RainbowCycle(duration: int)
    | ZipTo(duration: int, color: Pixel)

  /** An HTTP request as it is handed to the client: method, URL, header map
      and body. */
  datatype Request = Request(Method: string, URL: string, Header: map<string, string>, Body: seq<bv8>)

  /** One observable action. */
  datatype Event =
    | Show(frame: seq<Pixel>)     // `PixArray.Write` of the buffer as it then is
    | Start(animation: Animation) // the animation's `Start`
    | Step(animation: Animation)  // one ticker tick: `NextStep` then `Write`
    | Wait(ms: int)               // a timer that ran to the end uncancelled
    | Send(request: Request)      // `client.Do` of a built request
}
