/** The records the generator reads from its YAML input, after unmarshalling. */
module Messages {

  /** One extra parameter of a generated constructor. Neither field is checked. */
  datatype Arg = Arg(name: string, typ: string)

  /**
   * One diagnostic message definition. Only `name` and `code` are validated;
   * `level`, `description` and `template` are pasted into the output as they are,
   * and `url` is carried but never read.
   */
  datatype Message = Message(
    name: string,
    code: string,
    level: string,
    description: string,
    template: string,
    url: string,
    args: seq<Arg>)
}
