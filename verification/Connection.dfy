/** The goroutine that runs Connect, as the machines of one connection see it. */
module Connection {

  /** Between connections, in the dispatch loop of connection c, or past that
      loop with its context cancelled, on the way out of connectOnce. */
  datatype Main = Between | Serving(c: nat) | Closing(c: nat)
}
