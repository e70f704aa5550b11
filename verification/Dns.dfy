/** Ownership of the resolver file (src/linux/dns.rs): a sentinel line names the owner. */
module Dns {
  import opened Wrappers

  /** The resolver file: absent, or present with some text. */
  type File = Option<string>

  datatype DnsConfig = DnsConfig(searchDomains: seq<string>, servers: seq<string>)

  datatype DnsError = ForeignManaged | Io | EmptyOwner

  /** How one file operation goes: every step works, a reported I/O step fails, or a step whose
      result the program ignores fails (the second read of `apply`, the unlink of `remove`). */
  datatype Reply = Accept | Refuse | Glitch

  const SENTINEL_PREFIX := "# nmd-owned owner="

  // --- Text ------------------------------------------------------------------

  /** The characters with the Unicode White_Space property. */
  predicate IsWhitespace(c: char) {
    || '\U{9}' <= c <= '\U{D}' || c == ' ' || c == '\U{85}' || c == '\U{A0}' || c == '\U{1680}'
    || '\U{2000}' <= c <= '\U{200A}' || c == '\U{2028}' || c == '\U{2029}' || c == '\U{202F}'
    || c == '\U{205F}' || c == '\U{3000}'
  }

  function TrimStart(s: string): string {
    if s != [] && IsWhitespace(s[0]) then TrimStart(s[1..]) else s
  }

  function TrimEnd(s: string): string {
    if s != [] && IsWhitespace(s[|s| - 1]) then TrimEnd(s[..|s| - 1]) else s
  }

  function Trim(s: string): string {
    TrimEnd(TrimStart(s))
  }

  /** The text up to the first newline; a carriage return before it is left to `Trim`. */
  function FirstLine(s: string): (line: string)
    ensures line <= s && '\n' !in line
    ensures |line| < |s| ==> s[|line|] == '\n'
  {
    if s == [] || s[0] == '\n' then [] else [s[0]] + FirstLine(s[1..])
  }

  /** The owner named by the first sentinel line; a blank name counts as no owner. */
  function ParseOwner(content: string): Option<string>
    decreases |content|
  {
    var line := FirstLine(content);
    if SENTINEL_PREFIX <= line then
      var owner := Trim(line[|SENTINEL_PREFIX|..]);
      if owner == [] then None else Some(owner)
    else if |line| < |content| then
      ParseOwner(content[|line| + 1..])
    else
      None
  }

  /** Whether some line holds more than white space. */
  predicate HasText(content: string)
    decreases |content|
  {
    var line := FirstLine(content);
    || Trim(line) != []
    || (|line| < |content| && HasText(content[|line| + 1..]))
  }

  // --- Operations --------------------------------------------------------------

  function JoinWords(words: seq<string>): string {
    if words == [] then [] else if |words| == 1 then words[0] else words[0] + " " + JoinWords(words[1..])
  }

  function NameserverLines(servers: seq<string>): string {
    if servers == [] then [] else "nameserver " + servers[0] + "\n" + NameserverLines(servers[1..])
  }

  function Serialize(config: DnsConfig): string {
    (if config.searchDomains == [] then [] else "search " + JoinWords(config.searchDomains) + "\n")
    + NameserverLines(config.servers)
  }

  function Marked(owner: string, config: DnsConfig): string {
    SENTINEL_PREFIX + owner + "\n" + Serialize(config)
  }

  function Owner(file: File): Option<string> {
    if file.None? then None else ParseOwner(file.value)
  }

  /** A file with text and no sentinel: some other component's. */
  predicate Foreign(file: File) {
    file.Some? && Owner(file).None? && HasText(file.value)
  }

  function Apply(file: File, owner: string, config: DnsConfig, reply: Reply): (File, Option<DnsError>) {
    if owner == [] then (file, Some(EmptyOwner))
    else if reply.Refuse? then (file, Some(Io))
    else if Owner(file).Some? && Owner(file).value != owner then (file, Some(ForeignManaged))
    else if Foreign(file) && !reply.Glitch? then (file, Some(ForeignManaged))
    else (Some(Marked(owner, config)), None)
  }

  function Remove(file: File, owner: string, reply: Reply): (File, Option<DnsError>) {
    if reply.Refuse? then (file, Some(Io))
    else if Owner(file).None? then (file, None)
    else if Owner(file).value != owner then (file, Some(ForeignManaged))
    else if reply.Glitch? then (file, None)
    else (None, None)
  }

  /** A successful `apply` found no owner or the same owner. */
  lemma ApplyFindsNoOtherOwner(file: File, owner: string, config: DnsConfig, reply: Reply)
    requires Apply(file, owner, config, reply).1.None?
    ensures Owner(file).None? || Owner(file) == Some(owner)
  {
  }

  // --- Which owners are recognised ---------------------------------------------

  /** Owner names that the sentinel line carries unchanged. */
  predicate Recognisable(owner: string) {
    owner != [] && '\n' !in owner && Trim(owner) == owner
  }

  lemma {:induction false} FirstLineOf(line: string, rest: string)
    requires '\n' !in line
    ensures FirstLine(line + "\n" + rest) == line
  {
    if line != [] {
      assert (line + "\n" + rest)[1..] == line[1..] + "\n" + rest;
      FirstLineOf(line[1..], rest);
    }
  }

  lemma {:induction false} FirstLinePrefix(head: string, s: string)
    requires '\n' !in head
    ensures FirstLine(head + s) == head + FirstLine(s)
  {
    if head == [] {
      assert head + s == s;
    } else {
      assert (head + s)[1..] == head[1..] + s;
      FirstLinePrefix(head[1..], s);
    }
  }

  lemma {:induction false} TrimStartIsSuffix(s: string)
    ensures |TrimStart(s)| <= |s|
    ensures TrimStart(s) == s[|s| - |TrimStart(s)|..]
  {
    if s != [] && IsWhitespace(s[0]) {
      TrimStartIsSuffix(s[1..]);
    }
  }

  lemma {:induction false} TrimEndIsPrefix(s: string)
    ensures |TrimEnd(s)| <= |s|
    ensures TrimEnd(s) == s[..|TrimEnd(s)|]
  {
    if s != [] && IsWhitespace(s[|s| - 1]) {
      TrimEndIsPrefix(s[..|s| - 1]);
    }
  }

  lemma TrimIsPart(s: string)
    ensures |Trim(s)| <= |s|
    ensures forall c :: c in Trim(s) ==> c in s
  {
    TrimStartIsSuffix(s);
    TrimEndIsPrefix(TrimStart(s));
  }

  /** A written file names its owner back exactly when the name is recognisable. */
  lemma MarkedNamesOwner(owner: string, config: DnsConfig)
    ensures ParseOwner(Marked(owner, config)) == Some(owner) <==> Recognisable(owner)
  {
    var text := Marked(owner, config);
    var tail := owner + "\n" + Serialize(config);
    assert text == SENTINEL_PREFIX + tail;
    FirstLinePrefix(SENTINEL_PREFIX, tail);
    var named := FirstLine(tail);
    var line := FirstLine(text);
    assert line == SENTINEL_PREFIX + named;
    assert line[|SENTINEL_PREFIX|..] == named;
    if '\n' !in owner {
      FirstLineOf(owner, Serialize(config));
    } else {
      TrimIsPart(named);
    }
  }

  lemma {:induction false} TrimEndKeepsFirst(s: string)
    requires s != [] && !IsWhitespace(s[0])
    ensures TrimEnd(s) != []
    decreases |s|
  {
    if IsWhitespace(s[|s| - 1]) {
      TrimEndKeepsFirst(s[..|s| - 1]);
    }
  }

  /** A written file names somebody whenever the owner's name starts with a visible character. */
  lemma MarkedNamesSomebody(owner: string, config: DnsConfig)
    requires owner != [] && !IsWhitespace(owner[0])
    ensures ParseOwner(Marked(owner, config)).Some?
  {
    var text := Marked(owner, config);
    var tail := owner + "\n" + Serialize(config);
    assert text == SENTINEL_PREFIX + tail;
    FirstLinePrefix(SENTINEL_PREFIX, tail);
    var named := FirstLine(tail);
    assert tail[0] == owner[0] && named[0] == owner[0];
    var line := FirstLine(text);
    assert line == SENTINEL_PREFIX + named && line[|SENTINEL_PREFIX|..] == named;
    TrimEndKeepsFirst(named);
  }

  // --- Ownership over whole histories -------------------------------------------

  datatype Op =
    | ApplyOp(owner: string, config: DnsConfig, reply: Reply)
    | RemoveOp(owner: string, reply: Reply)

  function Perform(file: File, op: Op): File {
    match op
    case ApplyOp(owner, config, reply) => Apply(file, owner, config, reply).0
    case RemoveOp(owner, reply) => Remove(file, owner, reply).0
  }

  function PerformAll(file: File, ops: seq<Op>): File
    decreases |ops|
  {
    if ops == [] then file else PerformAll(Perform(file, ops[0]), ops[1..])
  }

  /** The ignored second read fails on this call. */
  predicate LosesRead(op: Op) {
    op.ApplyOp? && op.reply.Glitch?
  }

  /** One call changes a foreign file exactly when it is an `apply` by a named owner that loses its second
      read and does not happen to write the same text; a recognisable owner always writes another text. */
  lemma ForeignFileChangesOnlyOnLostRead(file: File, op: Op)
    requires Foreign(file)
    ensures Perform(file, op) != file
            <==> LosesRead(op) && op.owner != [] && file != Some(Marked(op.owner, op.config))
    ensures LosesRead(op) && Recognisable(op.owner) ==> Perform(file, op) != file
  {
    if LosesRead(op) && Recognisable(op.owner) {
      MarkedNamesOwner(op.owner, op.config);
    }
  }

  /** Over every interleaving of calls by any owners, a foreign file is never touched. */
  lemma {:induction false} ForeignFileIsNeverTouched(file: File, ops: seq<Op>)
    requires Foreign(file)
    requires forall i :: 0 <= i < |ops| ==> !LosesRead(ops[i])
    ensures PerformAll(file, ops) == file
  {
    if ops != [] {
      ForeignFileIsNeverTouched(file, ops[1..]);
    }
  }

  /** A file owned by `owner` survives every interleaving of other owners' calls, lost reads included. */
  lemma {:induction false} OwnedFileIsNeverTouchedByOthers(file: File, owner: string, ops: seq<Op>)
    requires Owner(file) == Some(owner)
    requires forall i :: 0 <= i < |ops| ==> ops[i].owner != owner
    ensures PerformAll(file, ops) == file
  {
    if ops != [] {
      OwnedFileIsNeverTouchedByOthers(file, owner, ops[1..]);
    }
  }

  /** Who last wrote the file: nobody, or the owner of the last successful `apply`. */
  predicate Settled(file: File, original: File) {
    file == original || file.None? || (Owner(file).Some? && Recognisable(Owner(file).value))
  }

  /** Whatever happens, the file is the original one, absent, or owned under a name that can be removed. */
  lemma {:induction false} EveryHistoryLeavesARemovableFile(original: File, file: File, ops: seq<Op>)
    requires Settled(file, original)
    requires forall i :: 0 <= i < |ops| ==> Recognisable(ops[i].owner)
    ensures Settled(PerformAll(file, ops), original)
    decreases |ops|
  {
    if ops != [] {
      var next := Perform(file, ops[0]);
      if ops[0].ApplyOp? && next != file {
        MarkedNamesOwner(ops[0].owner, ops[0].config);
      }
      EveryHistoryLeavesARemovableFile(original, next, ops[1..]);
    }
  }

  /** Files that a takeover by `owner` followed by its removal gives back. */
  predicate GivesBack(file: File, owner: string, config: DnsConfig) {
    || (file.None? && Recognisable(owner))
    || (Owner(file).None? && file == Some(Marked(owner, config)))
  }

  lemma TakeoverGivenBack(file: File, owner: string, config: DnsConfig)
    requires Owner(file).None? || Owner(file) == Some(owner)
    ensures Remove(Some(Marked(owner, config)), owner, Accept).0 == file <==> GivesBack(file, owner, config)
  {
    MarkedNamesOwner(owner, config);
  }

  /** After a successful `apply`, `remove` by the same owner leaves the file absent exactly when
      the owner's name is recognisable; otherwise the written file stays behind. */
  lemma ApplyThenRemove(file: File, owner: string, config: DnsConfig, reply: Reply)
    requires Apply(file, owner, config, reply).1.None?
    ensures var written := Apply(file, owner, config, reply).0;
            var left := Remove(written, owner, Accept).0;
            && (left.None? <==> Recognisable(owner))
            && (!Recognisable(owner) ==> left == written)
  {
    MarkedNamesOwner(owner, config);
  }

  // --- The manager -----------------------------------------------------------------

  /** The manager object; `file` stands for the contents of its path. */
  class LinuxDnsManager {
    var file: File

    constructor (initial: File)
      ensures file == initial
    {
      file := initial;
    }

    method JoinDomains(head: string, domains: seq<string>) returns (out: string)
      ensures out == head + JoinWords(domains)
    {
      out := head;
      for index := 0 to |domains|
        invariant out == head + JoinWords(domains[..index])
      {
        JoinTurn(head, domains, index);
        if index > 0 {
          out := out + " ";
        }
        out := out + domains[index];
      }
      assert domains[..|domains|] == domains;
    }

    /** Renders the search line and one line per server, left to right. */
    method SerializeConfig(config: DnsConfig) returns (out: string)
      ensures out == Serialize(config)
    {
      out := [];
      if config.searchDomains != [] {
        out := JoinDomains("search ", config.searchDomains);
        out := out + "\n";
      }
      ghost var head := out;
      var next := 0;
      assert config.servers[0..] == config.servers;
      while next < |config.servers|
        invariant 0 <= next <= |config.servers|
        invariant head + NameserverLines(config.servers) == out + NameserverLines(config.servers[next..])
      {
        NameserversFrom(out, config.servers, next);
        out := out + ("nameserver " + config.servers[next] + "\n");
        next := next + 1;
      }
      assert config.servers[next..] == [] && out + [] == out;
    }

    /** Takes the file over unless another owner or another component holds it. */
    method ApplyConfig(owner: string, config: DnsConfig, reply: Reply) returns (error: Option<DnsError>)
      modifies this
      ensures (file, error) == Apply(old(file), owner, config, reply)
    {
      if owner == [] {
        return Some(EmptyOwner);
      }
      if reply.Refuse? {
        return Some(Io);
      }
      var existing := Owner(file);
      if existing.Some? {
        if existing.value != owner {
          return Some(ForeignManaged);
        }
      } else if !reply.Glitch? && file.Some? && HasText(file.value) {
        return Some(ForeignManaged);
      }
      var body := SerializeConfig(config);
      file := Some(SENTINEL_PREFIX + owner + "\n" + body);
      error := None;
    }

    /** Deletes the file only while `owner` still holds it. */
    method RemoveConfig(owner: string, reply: Reply) returns (error: Option<DnsError>)
      modifies this
      ensures (file, error) == Remove(old(file), owner, reply)
    {
      if reply.Refuse? {
        return Some(Io);
      }
      match Owner(file)
      case Some(existing) =>
        if existing != owner {
          return Some(ForeignManaged);
        }
        if !reply.Glitch? {
          file := None;
        }
        error := None;
      case None =>
        error := None;
    }
  }

  lemma NameserversFrom(before: string, servers: seq<string>, n: nat)
    requires n < |servers|
    ensures before + NameserverLines(servers[n..])
            == before + ("nameserver " + servers[n] + "\n") + NameserverLines(servers[n + 1..])
  {
    assert servers[n..][1..] == servers[n + 1..];
    var line, rest := "nameserver " + servers[n] + "\n", NameserverLines(servers[n + 1..]);
    assert before + (line + rest) == before + line + rest;
  }

  lemma JoinTurn(head: string, words: seq<string>, n: nat)
    requires n < |words|
    ensures head + JoinWords(words[..n + 1])
            == (if n > 0 then (head + JoinWords(words[..n])) + " " else head + JoinWords(words[..n])) + words[n]
  {
    JoinOneMore(words, n);
    if n > 0 {
      assert head + (JoinWords(words[..n]) + " " + words[n]) == ((head + JoinWords(words[..n])) + " ") + words[n];
    } else {
      assert head + [] == head;
    }
  }

  lemma {:induction false} JoinOneMore(words: seq<string>, n: nat)
    requires n < |words|
    ensures n > 0 ==> JoinWords(words[..n + 1]) == JoinWords(words[..n]) + " " + words[n]
    ensures n == 0 ==> JoinWords(words[..1]) == words[0]
    decreases n
  {
    if n > 0 {
      JoinOneMore(words[1..], n - 1);
      assert words[..n + 1][1..] == words[1..][..n];
      assert words[..n][1..] == words[1..][..n - 1];
      if n == 1 {
        assert words[1..][..1] == [words[1]];
      }
    }
  }

  // --- Answers and texts ---------------------------------------------------------

  /** What each call answers and leaves, for every file and owner. */
  lemma CallsAnswer(file: File, owner: string, config: DnsConfig, reply: Reply)
    ensures var (after, error) := Apply(file, owner, config, reply);
            && (error.None? <==> && owner != [] && !reply.Refuse? && (Owner(file).None? || Owner(file) == Some(owner))
                                 && (Foreign(file) ==> reply.Glitch?))
            && after == (if error.None? then Some("# nmd-owned owner=" + owner + "\n" + Serialize(config)) else file)
    ensures var (after, error) := Remove(file, owner, reply);
            && (error.None? <==> !reply.Refuse? && (Owner(file).None? || Owner(file) == Some(owner)))
            && after == (if Owner(file) == Some(owner) && reply.Accept? then None else file)
  {
  }

  /** Lines before the sentinel do not matter; the sentinel line names its trimmed rest, if that is not blank. */
  lemma OwnerLines(line: string, rest: string, name: string)
    requires '\n' !in line && '\n' !in name
    ensures !("# nmd-owned owner=" <= line) ==> ParseOwner(line + "\n" + rest) == ParseOwner(rest)
    ensures ParseOwner("# nmd-owned owner=" + name + "\n" + rest) == if Trim(name) == [] then None else Some(Trim(name))
  {
    FirstLineOf(line, rest);
    var text := line + "\n" + rest;
    assert text[|line| + 1..] == rest;
    var sentinel := SENTINEL_PREFIX + name;
    FirstLineOf(sentinel, rest);
    assert sentinel[|SENTINEL_PREFIX|..] == name;
  }

  /** A text counts as non-blank exactly when some line is more than white space. */
  lemma TextLines(line: string, rest: string)
    requires '\n' !in line
    ensures HasText(line + "\n" + rest) <==> Trim(line) != [] || HasText(rest)
    ensures HasText(line) <==> Trim(line) != []
  {
    FirstLineOf(line, rest);
    var text := line + "\n" + rest;
    assert text[|line| + 1..] == rest;
    WholeLine(line);
  }

  lemma {:induction false} WholeLine(line: string)
    requires '\n' !in line
    ensures FirstLine(line) == line
  {
    if line != [] {
      WholeLine(line[1..]);
    }
  }
}
