# Leveling and self-roles of a Discord bot, modelled in Dafny

This project models the two state engines of the bot's cogs and proves properties about them.

- **XP and levels** (`cogs/leveling.py`):
  - the quadratic per-level threshold and the cumulative score;
  - the grant, which can carry XP over several levels;
  - the per-user message cooldown;
  - the leaderboard sort and cut.
- **Self-role selectors** (`cogs/self_roles.py`). Each guild has named selectors (panels). Each selector maps role ids to an emoji key and the text shown. The module models:
  - emoji normalisation, for command input and for reaction events;
  - the commands that create, bind, unbind and delete;
  - lookup of a selector by its panel message;
  - the panel rendering;
  - the reaction loop that picks at most one role to add or remove.

Files:
- `wrappers.dfy`: `Option`.
- `text.dfy`: Python's `strip`, `split` and `join`, and `str(n)`/`int(s)` for non-negative integers.
- `ordered_map.dfy`: an insertion-ordered dictionary, as a sequence of unique-keyed pairs.
- `leveling.dfy`: the leveling model.
- `self_roles.dfy`: the self-roles model.

The users table is a `map` from user id to profile, held in the class `UserTable`; its methods do the row reads and writes. The arithmetic of one grant is the module-level method `GrantXp`, a `while` loop proved against `CombinedScore`. `UserTable.AddXp` applies it to a row.

`top_users` works on the listing the `SELECT` returns. `IsListing` ties that listing to the table: every row exactly once, in some order.

The cog's `data` is a `map` from guild id to guild document. `Registry` holds it, with one method per command and event handler. Selectors and entries are ordered maps, because rendering and first-match resolution both depend on dictionary order. Assigning to an existing key keeps its position, so re-creating a selector or re-binding a role does not move it.

Everything the cog learns from Discord becomes a parameter:
- the id of the message just posted, or `None` if posting failed;
- whether the panel message could be fetched;
- which (channel, message) pairs are reachable;
- the guild's roles, as a map from id to position;
- the bot's top-role position, if the bot member is known;
- whether the reacting member resolved, and whether it is a bot.

The clock and the random message XP are parameters of `OnMessage`; the amount is required to lie in 15..25.

A hand computation that takes 210 as level 2's threshold gets (xp 35, level 3) for 500 XP granted at (0, 0). The code's threshold for level 2 is 5·4 + 100 + 100 = 220, so the result is xp 25 at level 3. The model follows the code; see `Leveling.GrantFiveHundredAtZero`.

## Model

| member | source | states |
|---|---|---|
| Leveling.XpForNextLevel | cogs/leveling.py:47-49 | the XP needed to leave a level is at least 100 |
| Leveling.XpForNextLevelIncreasing | cogs/leveling.py:47-49 | the threshold strictly increases with the level |
| Leveling.TotalXpAtLevel | cogs/leveling.py:52-56 | the loop's total is the sum of the thresholds of all lower levels (`CumulativeXp`) |
| Leveling.CumulativeXpClosedForm | cogs/leveling.py:52-56 | six times the cumulative XP of level L is 10L³ + 135L² + 455L |
| Leveling.CumulativeXpGap | cogs/leveling.py:52-60 | a higher level's cumulative XP is at least a lower level's plus that lower level's threshold |
| Leveling.CombinedScore | cogs/leveling.py:59-60 | with in-level XP below the threshold, the score lies in the level's band from its cumulative XP up to the next level's; `HigherLevelOutranks` and `ScoreDeterminesProfile` build on it |
| Leveling.HigherLevelOutranks | cogs/leveling.py:59-60 | with in-level XP below the threshold, any higher level has a strictly larger combined score |
| Leveling.ScoreDeterminesProfile | cogs/leveling.py:59-60 | with in-level XP below the threshold, equal scores mean equal level and XP |
| Leveling.LevelTwoOutranksLevelOne | cogs/leveling.py:59-60 | (level 2, xp 0) scores 255 and (level 1, xp 154) scores 254 |
| Leveling.GrantXp | cogs/leveling.py:122-127 | after the carry-over loop, XP is below the new level's threshold; the level never drops; `leveledUp` holds exactly when the level rose; the score grew by exactly the amount |
| Leveling.GrantTwentyAtNinety | cogs/leveling.py:122-127 | (xp 90, level 0) plus 20 can only end at xp 10, level 1 |
| Leveling.GrantFiveHundredAtZero | cogs/leveling.py:122-127 | (xp 0, level 0) plus 500 can only end at xp 25, level 3 |
| Leveling.Stored | cogs/leveling.py:101-107 | the row `get_profile` yields: the stored profile, or the zero profile (xp 0, level 0, timestamp 0) for an unknown user |
| Leveling.UserTable.GetProfile | cogs/leveling.py:93-107 | returns the stored row, or inserts and returns the zero row for an unknown user |
| Leveling.UserTable.AddXp | cogs/leveling.py:109-130 | a missing user starts at (0, 0); the row takes the grant's XP and level and keeps its timestamp; the score grows by the amount; no other row changes |
| Leveling.UserTable.UpdateLastMessageTs | cogs/leveling.py:132-135 | sets the timestamp of an existing row only; a missing row is not created |
| Leveling.UserTable.OnMessage | cogs/leveling.py:147-161 | bots and direct messages change nothing; within 60 s of the last rewarded message only the lazily inserted row appears; otherwise the user's row gains the amount and the new timestamp, and no other user's row changes |
| Leveling.CooldownScenario | cogs/leveling.py:151-158 | a new user's first message (at a clock of 60 s or more) is rewarded; a second one is rewarded exactly when it comes 60 s or more later |
| Leveling.InsertByScore | cogs/leveling.py:143 | inserting into the ranked list adds exactly that profile |
| Leveling.InsertByScoreRanked | cogs/leveling.py:143 | insertion keeps the list ordered by non-increasing score |
| Leveling.SortByScore | cogs/leveling.py:143 | the sort is a permutation ordered by non-increasing score |
| Leveling.WithScoreOfInsert | cogs/leveling.py:143 | among profiles of one score, an inserted profile comes first, ahead of those already placed; it comes from earlier in the listing, so listing order is kept |
| Leveling.SortByScoreStable | cogs/leveling.py:143 | profiles of equal score keep their listing order (the stable sort) |
| Leveling.SliceLength | cogs/leveling.py:144 | the length of `xs[:limit]`: the stop index (a negative limit counts from the end) clamped into 0..n |
| Leveling.TopUsers | cogs/leveling.py:137-144 | the result has the slice's length, is ordered by non-increasing score, and is drawn from the listing |
| Leveling.TopUsersStable | cogs/leveling.py:143-144 | the cut keeps ties in listing order: the kept profiles of each score are a prefix of that score's profiles in the listing |
| Leveling.TopUsersAreTop | cogs/leveling.py:137-144 | no profile left out scores above any profile in the result |
| Leveling.ListingSize | cogs/leveling.py:140-142 | a listing has one profile per table row |
| Leveling.TopUsersOfTable | cogs/leveling.py:137-144 | the leaderboard has min(limit, rows) entries (for a non-negative limit), each the table's own row; the table has no guild column, so every guild ranks the same rows; ties follow the order in which each SELECT lists them |
| Leveling.LeaderboardOfTable | cogs/leveling.py:137-144 | the daily leaderboard, `top_users()` with the default limit of 10, has min(10, rows) entries |
| Text.TrimLeft | cogs/self_roles.py:38 | `lstrip`: drops a prefix made of the given characters and stops at the first character outside them |
| Text.TrimRight | cogs/self_roles.py:38 | `rstrip`: the mirror image |
| Text.TrimIdempotent | cogs/self_roles.py:38 | stripping twice is stripping once |
| Text.Split | cogs/self_roles.py:42 | `split` yields at least one field and no field contains the separator |
| Text.JoinOfSplit | cogs/self_roles.py:42 | joining the fields of a split with the separator gives the text back |
| Text.SplitOfJoin | cogs/self_roles.py:42 | splitting separator-free fields joined by the separator gives the fields back |
| Text.Decimal | cogs/self_roles.py:56 | `str(n)` is a non-empty run of ASCII digits with no leading zero |
| Text.ParseDecimalOfDecimal | cogs/self_roles.py:225 | `int(str(id)) == id`, so the role ids stored as text find their roles in the reaction handlers |
| Text.DecimalInjective | cogs/self_roles.py:225 | distinct role ids give distinct entry keys |
| OrderedMap.Get | cogs/self_roles.py:124-125 | `dict.get` misses exactly for an absent key and otherwise returns a stored value |
| OrderedMap.GetAt | cogs/self_roles.py:124-125 | in a dictionary, the lookup of a stored key finds its own value |
| OrderedMap.Put | cogs/self_roles.py:197 | assignment keeps an existing key's position, appends a new key, sets the value and changes no other key |
| OrderedMap.PutKeepsUnique | cogs/self_roles.py:225 | assignment keeps the keys unique |
| OrderedMap.Remove | cogs/self_roles.py:257 | `pop` removes the key, leaves the others' values, keeps keys unique and shortens by one when the key was present |
| OrderedMap.RemoveAppend | cogs/self_roles.py:262-264 | popping a key works piecewise, so the remaining pairs keep their relative order |
| OrderedMap.RemoveOfPut | cogs/self_roles.py:225 | popping a key just assigned is popping it from the dictionary before the assignment |
| SelfRoles.NormalizeEmojiFromStr | cogs/self_roles.py:31-48 | the display is the whitespace-stripped input and the key starts with `c:` or `u:` |
| SelfRoles.NormalizeCustom | cogs/self_roles.py:40-46 | bracketed text of three colon-free fields, the last of them digits, gets the key `c:` plus that last field |
| SelfRoles.CustomKeyHasShape | cogs/self_roles.py:40-46 | a `c:` key only comes from input of that shape, and it carries its id field |
| SelfRoles.NormalizeLiteral | cogs/self_roles.py:47-48 | input of any other shape gets the key `u:` plus the stripped text |
| SelfRoles.NormalizeDisplayRoundTrip | cogs/self_roles.py:31-48 | normalising the stored display again gives the same binding |
| SelfRoles.NormalizeEmojiFromPayload | cogs/self_roles.py:50-57 | a reaction's key starts with `c:` or `u:` |
| SelfRoles.CustomKeysAgree | cogs/self_roles.py:31-57 | a custom emoji typed as `<:name:id>` or `<a:name:id>` is stored under exactly the key its reaction events carry |
| SelfRoles.LiteralKeysAgree | cogs/self_roles.py:31-57 | a unicode emoji without surrounding blanks is keyed `u:` plus itself, as its reaction events are |
| SelfRoles.RenderPanel | cogs/self_roles.py:152-164 | the loop's title and body are `PanelTitle` and `PanelBody`: the stored title or `Self-Roles: <name>`; the description alone, or the description, a blank line when it is non-empty, then one `display → <@&rid>` line per entry |
| SelfRoles.PanelBodyLines | cogs/self_roles.py:153-159 | read back line by line, a panel with entries is the description and a blank line (if any), then exactly one line per entry in entry order |
| SelfRoles.Surviving | cogs/self_roles.py:253-267 | unbind keeps exactly the entries that are neither the role's nor carry the key; it shrinks exactly when some entry matches |
| SelfRoles.SurvivingAppend | cogs/self_roles.py:262-264 | the filter works piecewise, so survivors keep their relative order |
| SelfRoles.SurvivingKeys | cogs/self_roles.py:253-267 | unbinding never introduces a role id that was not bound before |
| SelfRoles.SurvivingKeepsUnique | cogs/self_roles.py:253-267 | unbinding keeps role ids unique |
| SelfRoles.RemoveIsSurviving | cogs/self_roles.py:256-258 | popping the role's id is filtering that id out |
| SelfRoles.SurvivingInStages | cogs/self_roles.py:253-265 | removing the role first and the emoji's entries after is removing both at once |
| SelfRoles.SurvivingNothing | cogs/self_roles.py:253-267 | with neither a role nor an emoji, unbinding keeps every entry |
| SelfRoles.PopKeyed | cogs/self_roles.py:260-265 | popping, over a snapshot, every entry with the key leaves exactly the entries without it; it reports a removal exactly when the entries shrank |
| SelfRoles.RemoveBindings | cogs/self_roles.py:253-267 | the entries after unbind are `Surviving(entries, role, key)`; `removed` holds exactly when the entries shrank |
| SelfRoles.FirstActionable | cogs/self_roles.py:353-364 | the position of the first entry whose key matches, whose role exists and which the bot can assign; none such exists before it, and `None` means none exists at all |
| SelfRoles.ActedRole | cogs/self_roles.py:353-364 | the role acted on exists, is assignable and is bound to the reaction's key in this selector; nothing is acted on exactly when no entry qualifies |
| SelfRoles.ResolveReaction | cogs/self_roles.py:353-364 | the loop, with its `continue` past a missing or unmanageable role and its stop at the first action, acts on `ActedRole` |
| SelfRoles.CanAssignRole | cogs/self_roles.py:73-80 | without the bot's own member nothing is assignable, nor is a role at or above the bot's top role; `NoBotMemberNoAction` and `Registry.Bind`'s `RoleNotManageable` case use it |
| SelfRoles.NoBotMemberNoAction | cogs/self_roles.py:73-80 | when the bot's own member is unknown, no role is ever assigned |
| SelfRoles.BoundEmojiResolves | cogs/self_roles.py:225 | after binding an emoji used nowhere else in the selector to an assignable role, a reaction with that key acts on exactly that role |
| SelfRoles.FirstWithPanel | cogs/self_roles.py:127-131 | the position of the first selector whose panel is the message; none before it matches, and `None` means none matches |
| SelfRoles.SelectorForMessage | cogs/self_roles.py:127-131 | a found selector is stored in the guild and has that panel id; nothing is found exactly when no selector has it |
| SelfRoles.FindByPanel | cogs/self_roles.py:127-131 | the loop's early return yields `SelectorForMessage` |
| SelfRoles.WithGuild | cogs/self_roles.py:118-122 | `_g` adds an unknown guild with an empty document and changes no known guild |
| SelfRoles.CreateSelector | cogs/self_roles.py:191-203 | the named selector gets the new panel, channel, title and description and keeps its prior entries (none if new); other selectors are unchanged; an existing name keeps its place, a new one goes last |
| SelfRoles.CreatedPanelIsFound | cogs/self_roles.py:197-203 | with a fresh message id, reactions on the new panel find the created selector |
| SelfRoles.BindEntry | cogs/self_roles.py:224-225 | the role's binding is set, every other entry keeps its binding, and the selector's other fields are unchanged |
| SelfRoles.UnbindUndoesBind | cogs/self_roles.py:225-257 | unbinding by role right after binding it gives the entries the pop alone would give; for a role that was unbound before, that is the old entries |
| SelfRoles.CreateKeepsWellFormed | cogs/self_roles.py:191-203 | create keeps every dictionary in the document free of duplicate keys |
| SelfRoles.PutSelectorWellFormed | cogs/self_roles.py:224-226 | storing a selector with unique entries keeps the document well formed |
| SelfRoles.RemoveSelectorWellFormed | cogs/self_roles.py:321-325 | deleting a selector keeps the document well formed |
| SelfRoles.RefreshTargets | cogs/self_roles.py:137-138 | a non-empty name visits just that name with its lookup; otherwise every selector is visited, in store order, each with its own name and value |
| SelfRoles.EditPanels | cogs/self_roles.py:140-169 | the loop over visited selectors yields exactly the edits `PanelEdits` describes, skipping missing selectors and unreachable panels |
| SelfRoles.PanelEdits | cogs/self_roles.py:137-169 | a refresh makes at most one edit per visited selector, only for reachable panels, each rendering a visited selector |
| SelfRoles.PanelEditsComplete | cogs/self_roles.py:140-167 | every visited selector that exists and whose panel can be fetched gets its re-rendered edit |
| SelfRoles.PanelEditsAppend | cogs/self_roles.py:140-167 | edits come in visiting order: refreshing `a + b` is refreshing `a`, then `b` |
| SelfRoles.BindReplyAsWritten | cogs/self_roles.py:228-238 | as written: success only when the panel is found, the "panel not found" reply only when the fetch says not found |
| SelfRoles.DeletedChannelGetsNoReply | cogs/self_roles.py:228-233 | as written, a deleted channel answers nothing; the corrected reply reports the panel as missing |
| SelfRoles.BindReply | cogs/self_roles.py:228-238 | corrected: a deleted channel gets the same "panel not found" reply as a deleted message |
| SelfRoles.Registry.G | cogs/self_roles.py:118-122 | the guild's document after lazy creation; the document stays well formed |
| SelfRoles.Registry.GetSelector | cogs/self_roles.py:124-125 | the named selector after `_g`, if any |
| SelfRoles.Registry.FindSelectorByMessage | cogs/self_roles.py:127-131 | `_g` followed by `SelectorForMessage` |
| SelfRoles.Registry.Create | cogs/self_roles.py:182-205 | after `_g`: a failed post changes nothing more; otherwise the store is `CreateSelector` with the posted message id |
| SelfRoles.Registry.Bind | cogs/self_roles.py:214-238 | a missing selector or an unmanageable role changes nothing beyond `_g`; otherwise the entry is stored before the panel fetch, whatever the fetch gives, and the reply is `BindReplyAsWritten`, so a deleted panel channel gets no reply |
| SelfRoles.UnbindKey | cogs/self_roles.py:260-261 | an emoji argument counts only when present and non-empty, and then gives its normalised `c:`/`u:` key |
| SelfRoles.Registry.Unbind | cogs/self_roles.py:247-274 | a missing selector changes nothing beyond `_g`; otherwise the selector keeps its place with `Surviving` entries (an empty emoji counts as absent), and the reply says whether they shrank |
| SelfRoles.Registry.Delete | cogs/self_roles.py:321-328 | removes exactly the named selector and reports whether it existed |
| SelfRoles.RefreshAllComplete | cogs/self_roles.py:137-167 | refreshing all selectors re-renders every stored selector whose panel can be fetched |
| SelfRoles.Registry.RefreshPanels | cogs/self_roles.py:133-169 | one named selector (a non-empty name) or all of them, in store order; the edits are `PanelEdits` |
| SelfRoles.Registry.OnReactionAdd | cogs/self_roles.py:334-364 | no guild changes nothing; otherwise after `_g`, a message that is no panel, an unresolved member or a bot acts on nothing; else the role acted on is `ActedRole` |
| SelfRoles.Registry.OnReactionRemove | cogs/self_roles.py:367-396 | the same without the bot filter |

## Left out

- MySQL access: the schema, the SQL text and the connection pool. The table is a map. There is no locking, so concurrent grants to one user are not claimed to be atomic.
- Discord effects: sending, editing and fetching messages, adding reactions, adding and removing roles, `resolve_member`. Each enters as its outcome, and swallowed exceptions leave the state unchanged.
- The voice XP tick (cogs/leveling.py:164-181) and the daily leaderboard loop with its Europe/Zurich time arithmetic (cogs/leveling.py:188-211). These are background scheduling, time zones and daylight saving time.
- Level-up announcements, the leaderboard embed, the level commands and the text of every command reply beyond which reply is chosen.
- `selfroles_list` (cogs/self_roles.py:281-307): it only formats texts and reads the store through `_g`.
- JSON persistence (`load_data`/`save_data`): saving is a snapshot of the same state. The loaded document is assumed to have unique keys, as parsed JSON objects do.
- Leveling.UserTable.OnMessage: `time.time()` and the stored `last_msg_ts` are floats; the model uses whole seconds.
- Text.IsDigits: `str.isdigit` also accepts non-ASCII digits; the model accepts ASCII digits only.
- Text.Trim: `str.strip()` is modelled with Python's whitespace set, character by character; there is no Unicode normalisation.
- SelfRoles.CanAssignRole: roles are compared by position only; discord.py breaks position ties by role id.
- SelfRoles.RenderPanel: the fallback display `❓` for an entry without a display is not modelled; every binding here has one.
- SelfRoles.BindReply: an HTTP error other than "not found" still escapes the command; the correction covers only the deleted channel.
- The role mention in the bind reply, `add_panel_reaction`, and the refresh that bind and unbind trigger. These are Discord effects whose edits are described by `RefreshPanels`.

## Findings

| source | as written | input that shows it | evidently intended | confidence | as-written member | corrected member |
|---|---|---|---|---|---|---|
| cogs/self_roles.py:228-233 | `get_channel` returns `None` for a deleted channel, and `None.fetch_message` raises `AttributeError`, which the `except discord.NotFound` does not catch; the binding is saved but the command never replies | `selfroles_bind` on a selector whose panel channel was deleted | reply that the panel was not found, as for a deleted panel message | not executed; high | SelfRoles.BindReplyAsWritten, SelfRoles.DeletedChannelGetsNoReply | SelfRoles.BindReply |
