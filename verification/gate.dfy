/** The admission gate in front of the PUT workers: a buffered channel of capacity
    ConcurrencyLimit that a worker fills before its PUT and the collector drains
    after receiving a response. */
module Gate {
  import opened Errors

  /** Dyn allows one job in progress at a time. */
  const ConcurrencyLimit: nat := 1

  /** held = number of tokens in the channel = PUTs admitted and not yet collected. */
  datatype Semaphore = Semaphore(held: nat)

  const Open: Semaphore := Semaphore(0)

  predicate Valid(g: Semaphore)
  {
    g.held <= ConcurrencyLimit
  }

  /** semaphoreChan <- struct{}{}: None when the channel is full (the worker blocks). */
  function Acquire(g: Semaphore): (r: Option<Semaphore>)
    ensures r.Some? <==> g.held < ConcurrencyLimit
    ensures r.Some? ==> r.value.held == g.held + 1
    ensures Valid(g) && r.Some? ==> Valid(r.value)
  {
    if g.held < ConcurrencyLimit then Some(Semaphore(g.held + 1)) else None
  }

  /** <-semaphoreChan: None when the channel is empty (the collector would block). */
  function Release(g: Semaphore): (r: Option<Semaphore>)
    ensures r.Some? <==> g.held > 0
    ensures r.Some? ==> r.value.held + 1 == g.held && (Valid(g) ==> Valid(r.value))
  {
    if g.held > 0 then Some(Semaphore(g.held - 1)) else None
  }

  /** A release undoes an acquire, and with limit 1 a second acquire must wait for it. */
  lemma AcquireThenRelease(g: Semaphore)
    requires Valid(g) && g.held == 0
    ensures Acquire(g).Some? && Acquire(Acquire(g).value).None?
    ensures Release(Acquire(g).value) == Some(g)
  {
  }
}
