/** Values shared by every component: optional fields and the shape of a REST reply. */
module Common {

  /** An optional TypeScript field (`x?: T`): absent (`undefined`) or present. */
  datatype Option<+T> = None | Some(value: T)

  /** The outcome of one awaited REST call as a component sees it: the JSON body's
      `success` flag and `data`, or an exception caught by the surrounding try/catch. */
  datatype Response<+T> = Reply(success: bool, data: T) | Thrown

  /** True when the component takes the `if (response.success)` branch. */
  predicate Succeeded<T>(r: Response<T>) {
    r.Reply? && r.success
  }

  /** JavaScript truthiness of an optional string: present and not empty. */
  predicate NonEmpty(s: Option<string>) {
    s.Some? && s.value != []
  }

  /** JavaScript truthiness of an optional number: present and not zero. */
  predicate NonZero(n: Option<int>) {
    n.Some? && n.value != 0
  }

  /** JavaScript truthiness of an optional boolean. */
  predicate IsTrue(b: Option<bool>) {
    b.Some? && b.value
  }
}
