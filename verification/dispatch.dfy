/** The interaction dispatcher of api/interactions.js: what a verified,
    parsed body turns into. */
module Dispatch {
  import opened Wrappers
  import opened Interaction

  const Ping: int := 1
  const ApplicationCommand: int := 2
  const Pong: int := 1
  const ChannelMessageWithSource: int := 4

  const PongContent: string := "\U{1F3D3} Pong!"
  const SayFallback: string := "Nothing to say \U{1F910}"
  const HelpContent: string := "Commands: `/ping`, `/say <text>`, `/help`"
  const SayOption: string := "text"

  /** The command names the dispatcher answers. */
  const Registry: seq<string> := ["ping", "say", "help"]

  const Unhandled: Outcome := Text(400, "unhandled")
  const InternalError: Outcome := Text(500, "internal error")

  function CommandReply(content: string): (r: Outcome) {
    Json(200, Reply(ChannelMessageWithSource, Some(content)))
  }

  /** `t` occurs in `s` starting at position `i`. */
  predicate OccursAt(s: string, t: string, i: int) {
    0 <= i <= |s| - |t| && s[i..i + |t|] == t
  }

  /** `t` occurs in `s` as a contiguous substring. */
  ghost predicate Contains(s: string, t: string) {
    exists i :: OccursAt(s, t, i)
  }

  // ---------------------------------------------------------------------
  // Array.prototype.find over the options, with the predicate
  // `o => o.name === key`

  /** How a left-to-right `find` ends: the first match, no match, or a throw
      at a null element reached before any match. */
  datatype Scan = Found(index: nat) | NotFound | Raised(index: nat)

  predicate Hits(e: OptionEntry, key: string) {
    e.Entry? && e.name == Some(key)
  }

  predicate Misses(e: OptionEntry, key: string) {
    e.Entry? && e.name != Some(key)
  }

  /** Reference description of the first match: element `i` matches and
      every element before it is a non-matching object. */
  ghost predicate FirstHitAt(es: seq<OptionEntry>, key: string, i: int) {
    0 <= i < |es| && Hits(es[i], key) &&
    forall j :: 0 <= j < i ==> Misses(es[j], key)
  }

  /** Reference description of a throwing scan: element `i` is null and
      every element before it is a non-matching object. */
  ghost predicate FirstNullAt(es: seq<OptionEntry>, key: string, i: int) {
    0 <= i < |es| && es[i].Nullish? &&
    forall j :: 0 <= j < i ==> Misses(es[j], key)
  }

  function FindFirst(es: seq<OptionEntry>, key: string): (r: Scan)
    ensures r.Found? ==> FirstHitAt(es, key, r.index)
    ensures r.Raised? ==> FirstNullAt(es, key, r.index)
    ensures r.NotFound? ==> forall j :: 0 <= j < |es| ==> Misses(es[j], key)
  {
    if |es| == 0 then NotFound
    else if es[0].Nullish? then Raised(0)
    else if es[0].name == Some(key) then Found(0)
    else
      match FindFirst(es[1..], key)
      case Found(i) => Found(i + 1)
      case Raised(i) => Raised(i + 1)
      case NotFound => NotFound
  }

  /** The converse of FindFirst's contract for a match: the first matching
      element the reference description picks out is the one reported. The
      result already follows from FindFirst's contract; the induction spells
      out why. */
  lemma {:induction false} FirstHitFound(es: seq<OptionEntry>, key: string, i: int)
    requires FirstHitAt(es, key, i)
    ensures FindFirst(es, key) == Found(i)
  {
    if i > 0 {
      assert Misses(es[0], key);
      forall j | 0 <= j < i - 1
        ensures Misses(es[1..][j], key)
      {
        assert es[1..][j] == es[j + 1];
      }
      FirstHitFound(es[1..], key, i - 1);
    }
  }

  /** The converse of FindFirst's contract for a throw: the first null
      element the reference description picks out is where the scan throws.
      Like FirstHitFound, this already follows from FindFirst's contract. */
  lemma {:induction false} FirstNullRaised(es: seq<OptionEntry>, key: string, i: int)
    requires FirstNullAt(es, key, i)
    ensures FindFirst(es, key) == Raised(i)
  {
    if i > 0 {
      assert Misses(es[0], key);
      forall j | 0 <= j < i - 1
        ensures Misses(es[1..][j], key)
      {
        assert es[1..][j] == es[j + 1];
      }
      FirstNullRaised(es[1..], key, i - 1);
    }
  }

  // ---------------------------------------------------------------------
  // The `say` command

  /** The `say` content is `v`: the first option named "text" carries the
      non-empty string `v`. */
  ghost predicate SaysText(opts: OptionList, v: string) {
    opts.Items? && v != "" &&
    exists i :: FirstHitAt(opts.entries, SayOption, i) &&
                opts.entries[i].value == Some(v)
  }

  /** Looking up the "text" option throws: the options value is not an
      array, or a null element comes before any match. */
  ghost predicate LookupThrows(opts: OptionList) {
    opts.NotAList? ||
    (opts.Items? && exists i :: FirstNullAt(opts.entries, SayOption, i))
  }

  /** `find(o => o.name === 'text')?.value || ''`, then `text || fallback`. */
  function SayContent(opts: OptionList): (r: Completion<string>)
    ensures r.Normal? ==> r.value != ""
    ensures r.Thrown? ==> LookupThrows(opts)
    ensures r.Normal? && r.value != SayFallback ==> SaysText(opts, r.value)
  {
    match opts
    case NoOptions => Normal(SayFallback)
    case NotAList => Thrown
    case Items(es) =>
      match FindFirst(es, SayOption)
      case Raised(_) => Thrown
      case NotFound => Normal(SayFallback)
      case Found(i) =>
        var v := es[i].value;
        if Truthy(v) then Normal(v.value) else Normal(SayFallback)
  }

  /** The reference description determines the `say` content in every case:
      a first "text" option with a non-empty value is echoed, a throwing
      lookup throws, and everything else falls back to the placeholder. */
  lemma SayContentSpec(opts: OptionList)
    ensures LookupThrows(opts) <==> SayContent(opts).Thrown?
    ensures forall v :: SaysText(opts, v) ==> SayContent(opts) == Normal(v)
    ensures !LookupThrows(opts) && (forall v :: !SaysText(opts, v)) ==>
              SayContent(opts) == Normal(SayFallback)
  {
    if opts.Items? {
      var es := opts.entries;
      forall i | FirstNullAt(es, SayOption, i)
        ensures SayContent(opts).Thrown?
      {
        FirstNullRaised(es, SayOption, i);
      }
      forall v | SaysText(opts, v)
        ensures SayContent(opts) == Normal(v)
      {
        var i :| FirstHitAt(es, SayOption, i) && es[i].value == Some(v);
        FirstHitFound(es, SayOption, i);
      }
    }
  }

  // ---------------------------------------------------------------------
  // The dispatcher

  /** The command name when the body is an application command. */
  function CommandName(i: Interaction): (name: Option<string>) {
    match i.data
    case Some(d) => d.name
    case None => None
  }

  function CommandOptions(i: Interaction): (opts: OptionList) {
    match i.data
    case Some(d) => d.options
    case None => NoOptions
  }

  /** The body is answered with a reply rather than "unhandled". */
  ghost predicate Recognized(i: Interaction) {
    i.kind == Some(Ping) ||
    (i.kind == Some(ApplicationCommand) && CommandName(i).Some? &&
     CommandName(i).value in Registry)
  }

  /** Maps a verified interaction to the handler's response. */
  function Dispatch(i: Interaction): (r: Outcome)
    ensures i.kind == Some(Ping) ==> r == Json(200, Reply(Pong, None))
    ensures r.status in {200, 400, 500}
    ensures r.status == 400 <==> !Recognized(i)
    ensures r.status == 400 ==> r == Unhandled
    ensures r.status == 500 ==>
              r == InternalError && i.kind == Some(ApplicationCommand) &&
              CommandName(i) == Some("say") && LookupThrows(CommandOptions(i))
    ensures r.status == 200 && i.kind != Some(Ping) ==>
              r.Json? && r.reply.kind == ChannelMessageWithSource &&
              r.reply.content.Some? && r.reply.content.value != ""
  {
    if i.kind == Some(Ping) then
      Json(200, Reply(Pong, None))
    else if i.kind == Some(ApplicationCommand) then
      var name := CommandName(i);
      if name == Some("ping") then
        CommandReply(PongContent)
      else if name == Some("say") then
        match SayContent(CommandOptions(i))
        case Normal(text) => CommandReply(text)
        case Thrown => InternalError
      else if name == Some("help") then
        CommandReply(HelpContent)
      else
        Unhandled
    else
      Unhandled
  }

  /** Each command's reply, by name. */
  lemma CommandReplies(i: Interaction)
    requires i.kind == Some(ApplicationCommand)
    ensures CommandName(i) == Some("ping") ==> Dispatch(i) == CommandReply("\U{1F3D3} Pong!")
    ensures CommandName(i) == Some("help") ==> Dispatch(i) == CommandReply(HelpContent)
    ensures CommandName(i) == Some("say") && !LookupThrows(CommandOptions(i)) ==>
              Dispatch(i).Json? && Dispatch(i).status == 200 &&
              Dispatch(i).reply.content == Some(SayContent(CommandOptions(i)).value)
  {
    SayContentSpec(CommandOptions(i));
  }

  /** A `say` whose option lookup throws (options that are not an array, or
      a null element before any "text" option) is answered 500 `internal
      error`, not with the placeholder. */
  lemma SayThrowIsInternalError(i: Interaction)
    requires i.kind == Some(ApplicationCommand) && CommandName(i) == Some("say")
    requires LookupThrows(CommandOptions(i))
    ensures Dispatch(i) == InternalError
  {
    SayContentSpec(CommandOptions(i));
  }

  /** `say` with a first "text" option of "hello" answers "hello". */
  lemma SayHello(i: Interaction)
    requires i.kind == Some(ApplicationCommand)
    requires i.data == Some(CommandData(Some("say"), Items([Entry(Some("text"), Some("hello"))])))
    ensures Dispatch(i) == CommandReply("hello")
  {
  }

  /** The help text names every registered command as a slash command. */
  lemma HelpListsEveryCommand()
    ensures forall c :: c in Registry ==> Contains(HelpContent, "/" + c)
    ensures Contains(HelpContent, "/say <text>")
  {
    var sep := "`, `";
    assert HelpContent == "Commands: `" + "/ping" + sep + "/say <text>" + sep + "/help" + "`";
    assert OccursAt(HelpContent, "/" + "ping", 11);
    assert OccursAt(HelpContent, "/" + "say", 20);
    assert OccursAt(HelpContent, "/" + "help", 35);
    assert OccursAt(HelpContent, "/say <text>", 20);
  }
}
