/** The listener objects of the two older reflective buses (`EventListener` and its
    `classic` twin, implemented by `EventListenerImpl`). They do not override
    `equals`, so a listener equals only itself. */
module ClassicListener {
  import opened JavaModel

  /** A listener object: `self` is the listener object itself, `instance` the
      subscriber it calls, `handler` the method, `priority` its priority. */
  datatype Listener = Listener(self: Value, instance: Value, handler: Method, priority: Int32)

  function Prio(l: Listener): int { l.priority }

  /** A listener factory: subscriber and method to a new listener. */
  type Factory = (Value, Method) -> Listener
}
