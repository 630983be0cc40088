/** Standard input as a scripted sequence of lines the operator types. */
module Terminal {
  import opened Wrappers

  class Console {
    /** The lines still to be read, in order. */
    var answers: seq<string>

    constructor (script: seq<string>)
      ensures answers == script
    {
      answers := script;
    }

    /** `input()`: the next line, or `None` where Python raises `EOFError`. */
    method Input() returns (line: Option<string>)
      modifies this
      ensures old(answers) == [] ==> line == None && answers == []
      ensures old(answers) != [] ==> line == Some(old(answers)[0]) && answers == old(answers)[1..]
    {
      if answers == [] {
        return None;
      }
      line := Some(answers[0]);
      answers := answers[1..];
    }
  }
}
