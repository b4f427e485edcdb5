/** The part of the parsing library's `Command` that the restore parser uses: a named command
    whose positional arguments and options are appended to, one at a time. */
module CommandLine {
  import opened Descriptors

  class Command {
    const name: string
    const description: string
    var arguments: seq<Argument>
    var options: seq<Descriptor>

    /** `new Command(name, description)`: a command with nothing attached yet. */
    constructor (name: string, description: string)
      ensures this.name == name && this.description == description
      ensures arguments == [] && options == []
    {
      this.name := name;
      this.description := description;
      arguments := [];
      options := [];
    }

    /** `command.AddArgument(a)`: `a` becomes the last positional argument. */
    method AddArgument(a: Argument)
      modifies this
      ensures arguments == old(arguments) + [a]
      ensures options == old(options)
    {
      arguments := arguments + [a];
    }

    /** `command.AddOption(o)`: `o` becomes the last option. */
    method AddOption(o: Descriptor)
      modifies this
      ensures options == old(options) + [o]
      ensures arguments == old(arguments)
    {
      options := options + [o];
    }
  }
}
