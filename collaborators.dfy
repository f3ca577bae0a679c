/**
 * The outside collaborators the navigators consult.
 */
module Collaborators {
  import opened Types
  import opened HandlerRegistry

  /**
   * The collaborators of a navigator, each as an uninterpreted function:
   * the metadata factory, the event dispatcher (presence, listener query
   * and the data/type a pre listener leaves in its event), the exclusion
   * strategy, the runtime class hierarchy (class_exists / is_subclass_of),
   * the string cast, the context's current path, and `answer`, the value
   * any visitor, handler or constructor call returns; `handlers` is the
   * handler registry's table.
   */
  datatype Env = Env(
    metadata: string -> ClassMetadata,
    hasDispatcher: bool,
    hasListeners: (string, string, string) -> bool,
    eventData: Call -> Value,
    eventType: Call -> Type,
    hasExclusion: bool,
    skipClass: ClassMetadata -> bool,
    skipProperty: PropertyMetadata -> bool,
    classExists: string -> bool,
    isSubclass: (string, string) -> bool,
    castString: Value -> string,
    path: Option<string>,
    answer: Call -> Value,
    handlers: Table)
}
