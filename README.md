# Auto-like registry of the like cog

This project models the core of `cogs/likeCommands.py`, the Discord cog that
keeps, per guild, a list of Free Fire players (a `uid` and a `server` region)
to be "liked" once a day through a remote like service.

- **Registry** (`registry.dfy`): the dictionary `config_data["servers"]`,
  guild id to record, as an insertion-ordered map (`Servers`). A record may
  have an `auto_like_channel` and an `auto_like_list` of `{uid, server}`
  entries. Either key can be missing. `Entries` reads a guild's list as line
  137 does: the list, or no entries when the guild has no record or no list.
  The module gives the meaning of each
  command as a function: `SetChannel`, `Add` (which includes the uid check),
  `Remove` (Python's `list.remove` is `RemoveFirst`) and `WithList` (the two
  `setdefault` calls). It also proves the properties that hold across
  commands: add-then-remove restores the list, setting the channel twice is
  the same as setting it once, and no command sequence creates a duplicate
  pair.
- **LikeApi** (`like_api.dfy`): one reply of the like service, and the report
  the task makes of it (`Classify`).
- **Sweep** (`sweep.dfy`): the order in which one run of the daily task sends
  its requests (`Requests`), and the lemmas that fix that order.
- **LikeCog** (`like_commands.dfy`): the class `LikeCommands`, whose fields are
  the in-memory configuration and the configuration file. Its constructor
  loads the configuration (`LoadConfig`). Its methods are the commands and the
  task, written step by step as the cog runs them. Each method is tied to the
  registry function it implements and states what is saved.

The cog keeps no timestamps. Its timing is the 24-hour loop period
(line 133), the embed timestamp (line 120), and the 8- and 10-second
`delete_after` of the replies; none of these is modelled.

## Model

| member | source | states |
|---|---|---|
| `Registry.SetDefaultGuild` | cogs/likeCommands.py:49 | Afterwards the guild has a record. A new guild gets an empty record at the end of the order. No guild's record changes, the new guild's included (a missing record already reads as empty). |
| `Registry.SetDefaultList` | cogs/likeCommands.py:69 | Afterwards the guild's record has a list, which is its old list or an empty one. The channel, the order and every other guild are unchanged. |
| `Registry.SetChannel` | cogs/likeCommands.py:47-51 | Afterwards the guild has a record whose channel is the given id. The guild's list (or its absence) is unchanged. Every other guild is unchanged. A new guild is added at the end of the order. |
| `Registry.SetChannelLastWins` | cogs/likeCommands.py:48-51 | Setting the channel twice gives exactly the registry that setting it once to the second value gives. |
| `Registry.WithList` | cogs/likeCommands.py:68-69 | After the two `setdefault` calls, the guild has a record with a list. No list's contents change, no other guild changes, and a new guild goes at the end. |
| `Registry.ValidUidBoundary` | cogs/likeCommands.py:64 | The uid guard accepts six or more digits. It rejects five digits, the empty string, and a uid with a sign, a space or a letter. |
| `Registry.Add` | cogs/likeCommands.py:63-76 | A uid that is not all digits or is shorter than 6 characters is rejected, and the registry is left exactly as it was. An already listed `(uid, server)` pair is refused; the only change then is the creation of an empty record or list. Otherwise the pair is appended at the end of that guild's list (which then exists in the record), earlier entries keep their order, and the channel and all other guilds are unchanged. The same uid with another server is a different pair. |
| `Registry.RemoveFirst` | cogs/likeCommands.py:97 | Removing a present element shortens the list by one. Removing an absent element returns the list unchanged. |
| `Registry.RemoveFirstCutsFirstMatch` | cogs/likeCommands.py:97 | Removal cuts out exactly the first matching element and keeps everything before and after it in order. |
| `Registry.Remove` | cogs/likeCommands.py:88-97 | The command removes only if the pair is listed. Either way the guild's record afterwards holds a list, and that list is `RemoveFirst` of its old list. Removing the last entry leaves an empty list in the record. An absent pair leaves only the `setdefault` changes. The channel and all other guilds are unchanged. |
| `Registry.RemoveAfterAppend` | cogs/likeCommands.py:75 | Removing an element that was just appended, and was not listed before, gives back the original list. |
| `Registry.AddThenRemove` | cogs/likeCommands.py:63-97 | Adding a valid, unlisted pair and then removing it succeeds both times. The result is the original registry plus only the `setdefault` changes, so the guild's list is restored exactly. |
| `Registry.RemoveFirstKeepsNoDuplicates` | cogs/likeCommands.py:97 | Removing from a list without duplicates leaves a list without duplicates. |
| `Registry.ApplyKeepsDuplicateFree` | cogs/likeCommands.py:47-112 | No single command (set channel, add, remove, list) creates a duplicate pair in any guild's list. |
| `Registry.RunKeepsDuplicateFree` | cogs/likeCommands.py:71-75 | A registry without duplicate pairs keeps none under any sequence of commands, because add never appends a pair that is already listed. |
| `LikeApi.StatusIsOneCases` | cogs/likeCommands.py:153 | `status == 1` holds for the number 1 and for `True`. It fails for the string `"1"`, for 0, 1.5, `False` and `null`, and for a missing key. |
| `LikeApi.Classify` | cogs/likeCommands.py:150-165 | HTTP 200 with a JSON object whose `status` equals 1 (the number 1 or `True`) is a like. HTTP 200 with any other `status` is "already max today". Any non-200 code is an API error carrying that code, whatever the body. A raised exception, or a 200 body that is not a JSON object, goes to the error handler. |
| `Sweep.LogChannel` | cogs/likeCommands.py:138-142 | Reports go to a channel only when the guild's `auto_like_channel` is set, non-zero and resolvable, and then they go to that channel. |
| `Sweep.Requests` | cogs/likeCommands.py:136-146 | One run's requests, guild by guild and each list in order. There is one request per listed entry: the count is the total length of the swept guilds' lists. |
| `Sweep.RequestsExtend` | cogs/likeCommands.py:136-146 | Visiting the next guild keeps the requests already made and adds that guild's entries after them, in list order. |
| `Sweep.AnswersExtend` | cogs/likeCommands.py:144-167 | If the requests are those already answered followed by one guild's entries, and each new entry is answered with the next unused reply, then the attempts made answer every request one for one. |
| `Sweep.SweepStep` | cogs/likeCommands.py:136-167 | One pass of the outer loop: answering the next guild's entries extends an answer of the guilds before it to an answer of the guilds up to and including it. |
| `Sweep.RequestsConcat` | cogs/likeCommands.py:136-144 | The requests for consecutive runs of guilds follow one another: the sweep goes guild by guild. |
| `Sweep.RequestsPerGuild` | cogs/likeCommands.py:136-146 | For every guild, the requests of one run that belong to it are exactly its list, in list order. So there is one request per entry, and a guild without a list gets none. |
| `LikeCog.Truthy` | cogs/likeCommands.py:37 | A configuration document is falsy exactly when it is the empty dictionary. |
| `LikeCog.LoadConfig` | cogs/likeCommands.py:23-34 | The loaded configuration always has `servers`. A readable file is used as it is, with an empty `servers` added if it lacks one, and it is not rewritten. A missing or corrupt file gives exactly `{"servers": {}}`, and that is what is written back. |
| `LikeCog.SaveThenLoad` | cogs/likeCommands.py:23-41 | Whatever a save writes, the next load reads back unchanged without rewriting the file. |
| `LikeCog.NumberRows` | cogs/likeCommands.py:123-128 | The listing has one row per entry, numbered from 1 in list order, with that entry's uid and server. |
| `LikeCog.LikeCommands.constructor` | cogs/likeCommands.py:16-19 | The cog's configuration is what `LoadConfig` gives. The file is unchanged if it was readable, and otherwise holds the default. |
| `LikeCog.LikeCommands.SaveConfig` | cogs/likeCommands.py:36-41 | The file afterwards holds the given document. If no document is given, or the given one is an empty (falsy) dictionary, it holds the current configuration instead. |
| `LikeCog.LikeCommands.SetAutoLikeChannel` | cogs/likeCommands.py:47-51 | The registry becomes `SetChannel` of the old one, the other top-level keys are kept, and the new configuration is saved. |
| `LikeCog.LikeCommands.AddAutoLike` | cogs/likeCommands.py:63-76 | The registry and the reply are exactly those of `Add`. The file is rewritten only when the entry was added; a rejected uid or a duplicate leaves the file as it was. |
| `LikeCog.LikeCommands.RemoveAutoLike` | cogs/likeCommands.py:88-98 | The registry and the reply are exactly those of `Remove`. The file is rewritten only when an entry was removed. |
| `LikeCog.LikeCommands.ListAutoLike` | cogs/likeCommands.py:109-130 | Only the two `setdefault` calls change the registry, and nothing is saved. An empty list gets the "no UIDs" reply. Otherwise every entry is listed in order, numbered from 1. |
| `LikeCog.LikeCommands.SweepGuild` | cogs/likeCommands.py:137-167 | For one guild, there is one attempt per entry of its list, in list order. The j-th attempt uses the j-th reply after those already used, carries the guild's log channel, and reports `Classify` of that reply. |
| `LikeCog.LikeCommands.AutoLikeTask` | cogs/likeCommands.py:134-167 | One run sends exactly one request per entry, guild by guild in dictionary order and each list in order. The k-th report is `Classify` of the k-th reply and goes to the guild's log channel, so a failing request affects only its own report. The method has no `modifies` clause, so the configuration is never changed. |

## Left out

- Discord I/O: `ctx.send`, the reply texts, `delete_after`, embed titles, colours and timestamps, `print`, and sending to the log channel. The model returns which reply or report is given and to which channel, but not the text. The channels the bot can resolve (`bot.get_channel`, line 142) are an input that stays the same for the whole run; changes to the bot's channel cache during a run are not modelled. A send to the log channel is assumed to succeed. In the code, a failing send inside the handler raises again out of the task.
- The HTTP layer: the session, URL building and `response.json()`. A reply is an input (`net(k)` for the k-th request): an HTTP code with a body that is a JSON object (with its `status` value), another JSON value, or not JSON at all, or an exception. JSON numbers are modelled as exact reals, so float rounding of `status` is not modelled.
- Scheduling and lifecycle: `tasks.loop(hours=24)`, `before_loop`/`wait_until_ready`, `cog_unload`, `setup`, and task cancellation. One call of `AutoLikeTask` is one run of the loop body.
- Concurrency: commands are modelled as running between runs of the task. In the code the task awaits inside its loop, so a command can run in the middle of a run. If that command adds a guild, the dictionary iteration raises. An entry appended to the guild being swept, or to a guild not yet reached, is visited in that run; one appended to a guild already swept is not. Removing the entry being processed, or one before it, skips the entry that follows the one being processed; removing a later entry only means that entry is not visited.
- Commands outside a guild: every command reads `ctx.guild.id` (lines 48, 67, 89, 110). In a direct message `ctx.guild` is `None`, so the command raises before touching the registry. The exception is add with an invalid uid, which replies first (lines 64-65). The model's commands always take a guild id, so this error path is not modelled.
- File I/O: the temporary file, `os.replace`, and JSON encoding. The file is modelled as the document last written, and JSON encoding followed by decoding is taken to be the identity. Read errors other than a decode error are not modelled; they would propagate.
- Malformed file contents: any value whose JSON type differs from the one the code expects, and list entries without a `uid` or `server` key or with extra keys. This covers, for example, a top-level value that is not an object (start-up crashes), a `servers` value or guild record that is not an object, an `auto_like_list` that is `null` or not a list, a `uid` or `server` that is not a string, and an `auto_like_channel` that is not an integer. Such values make a command or the task raise, outside the task's handler, or make a command behave differently. For example, with `"auto_like_list": null`, list replies "no UIDs" while add and remove raise. Malformed entries would also never compare equal in add and remove. The model's types exclude all of these. Top-level keys other than `servers` are carried along, but their values are not interpreted.
- Registry.Add: the uid check accepts only the ASCII digits `0`-`9`. Python's `str.isdigit` also accepts other Unicode digit characters (for example `²` or `٣`), so the model rejects some uids that the code accepts.
- The environment lookup `load_dotenv`/`API_URL`.
- LikeCog.LikeCommands.ListAutoLike: promises an embed with one field per entry. Discord accepts at most 25 fields per embed, so the send on line 130 fails for a list of 26 or more entries. That limit belongs to the Discord service, not to this code, and it is not modelled.
