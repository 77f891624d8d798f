/**
 * The self-role selector registry: emoji normalisation, the per-guild
 * document of named selectors and their emoji/role entries, the commands
 * that change it, panel rendering and reaction-to-role resolution.
 * Discord-side facts (role positions, the bot's top role, which roles and
 * members exist, whether a message could be sent or fetched) are inputs.
 */
module SelfRoles {
  import opened Wrappers
  import opened Text
  import opened OrderedMap

  /** The characters `strip("<>")` removes. */
  const Angles: set<char> := {'<', '>'}

  /** One `entries` value: the normalised emoji key and the text shown and reacted with. */
  datatype Binding = Binding(key: string, display: string)

  /** One selector (panel); `entries` maps role ids to bindings in insertion order. */
  datatype Selector = Selector(
    panelId: int, channelId: int, title: string, description: string,
    entries: OMap<nat, Binding>)

  /** `data[str(guild.id)]`: the guild's selectors by name, in insertion order. */
  datatype GuildDoc = GuildDoc(selectors: OMap<string, Selector>)

  /** `payload.emoji`; `is_custom_emoji()` holds exactly when it has an id. */
  datatype PartialEmoji = PartialEmoji(id: Option<nat>, name: Option<string>)

  /** A normalised key: `c:` for a custom emoji id, `u:` for literal text. */
  predicate IsKey(k: string)
  {
    |k| >= 2 && (k[..2] == "c:" || k[..2] == "u:")
  }

  // ---------------------------------------------------------------- emoji normalisation

  /** The custom-emoji test of `normalize_emoji_from_str`, on the whitespace-stripped text. */
  predicate IsCustomToken(d: string)
  {
    && |d| > 0 && d[0] == '<' && d[|d| - 1] == '>'
    && var fields := Split(Trim(d, Angles), ':');
       |fields| == 3 && IsDigits(fields[2])
  }

  /** `normalize_emoji_from_str`: the binding for an emoji typed into a command. */
  function NormalizeEmojiFromStr(raw: string): (b: Binding)
    ensures b.display == Trim(raw, Whitespace)
    ensures IsKey(b.key)
  {
    var d := Trim(raw, Whitespace);
    if IsCustomToken(d) then Binding("c:" + Split(Trim(d, Angles), ':')[2], d)
    else Binding("u:" + d, d)
  }

  /** `normalize_emoji_from_payload`: the key of a reaction event's emoji. */
  function NormalizeEmojiFromPayload(e: PartialEmoji): (key: string)
    ensures IsKey(key)
  {
    if e.id.Some? && e.id.value != 0 then "c:" + Decimal(e.id.value)
    else "u:" + (if e.name.Some? then e.name.value else "")
  }

  /**
   * The shape a custom emoji must have: `<` ... `>` around text that, once
   * its outer angle brackets are stripped, is three colon-free fields of
   * which the last is digits.
   */
  ghost predicate CustomShape(d: string, fields: seq<string>)
  {
    && |d| > 0 && d[0] == '<' && d[|d| - 1] == '>'
    && |fields| == 3
    && (forall i :: 0 <= i < |fields| ==> ':' !in fields[i])
    && Join(fields, ":") == Trim(d, Angles)
    && IsDigits(fields[2])
  }

  /** Text of the custom shape gets the key `c:` + its id field, whatever the prefix and name. */
  lemma NormalizeCustom(raw: string, fields: seq<string>)
    requires CustomShape(Trim(raw, Whitespace), fields)
    ensures NormalizeEmojiFromStr(raw) == Binding("c:" + fields[2], Trim(raw, Whitespace))
  {
    SplitOfJoin(fields, ':');
  }

  /** A `c:` key comes only from text of the custom shape. */
  lemma CustomKeyHasShape(raw: string)
    requires NormalizeEmojiFromStr(raw).key[..2] == "c:"
    ensures exists fields :: CustomShape(Trim(raw, Whitespace), fields)
              && NormalizeEmojiFromStr(raw).key == "c:" + fields[2]
  {
    var d := Trim(raw, Whitespace);
    var fields := Split(Trim(d, Angles), ':');
    assert ("u:" + d)[..2] == "u:";
    JoinOfSplit(Trim(d, Angles), ':');
    assert CustomShape(d, fields);
  }

  /** Text of any other shape is keyed by itself. */
  lemma NormalizeLiteral(raw: string)
    requires forall fields :: !CustomShape(Trim(raw, Whitespace), fields)
    ensures NormalizeEmojiFromStr(raw) == Binding("u:" + Trim(raw, Whitespace), Trim(raw, Whitespace))
  {
    var d := Trim(raw, Whitespace);
    if IsCustomToken(d) {
      var fields := Split(Trim(d, Angles), ':');
      JoinOfSplit(Trim(d, Angles), ':');
      assert CustomShape(d, fields);
    }
  }

  /** Re-normalising the stored display gives the stored binding back. */
  lemma NormalizeDisplayRoundTrip(raw: string)
    ensures NormalizeEmojiFromStr(NormalizeEmojiFromStr(raw).display) == NormalizeEmojiFromStr(raw)
  {
    var d := Trim(raw, Whitespace);
    TrimIdempotent(raw, Whitespace);
    assert Trim(d, Whitespace) == d;
  }

  /** Text in one pair of angle brackets has no blanks to strip and loses exactly the brackets. */
  lemma BracketedTrims(inner: string)
    requires |inner| >= 1 && inner[0] !in Angles && inner[|inner| - 1] !in Angles
    ensures Trim("<" + inner + ">", Whitespace) == "<" + inner + ">"
    ensures Trim("<" + inner + ">", Angles) == inner
  {
    var token := "<" + inner + ">";
    assert token[1..|token| - 1] == inner;
    TrimOuter(token, Angles);
    TrimUntouched(token, Whitespace);
  }

  /** Bracketed colon-free fields, the last of them digits, have the custom shape. */
  lemma BracketedShape(inner: string, fields: seq<string>)
    requires |inner| >= 1 && inner[0] !in Angles && inner[|inner| - 1] !in Angles
    requires |fields| == 3 && (forall i :: 0 <= i < |fields| ==> ':' !in fields[i])
    requires Join(fields, ":") == inner && IsDigits(fields[2])
    ensures CustomShape("<" + inner + ">", fields)
  {
    var d := "<" + inner + ">";
    assert |d| > 0 && d[0] == '<' && d[|d| - 1] == '>';
    assert Trim(d, Angles) == inner by { BracketedTrims(inner); }
  }

  /** The text Discord shows for a custom emoji has the custom shape. */
  lemma CustomTokenShape(prefix: string, name: string, digits: string)
    requires prefix == "" || prefix == "a"
    requires ':' !in name && IsDigits(digits)
    ensures CustomShape("<" + (prefix + ":" + name + ":" + digits) + ">", [prefix, name, digits])
  {
    var inner := prefix + ":" + name + ":" + digits;
    JoinThree(prefix, name, digits, ":");
    assert inner[0] == (if prefix == "a" then 'a' else ':');
    assert inner[|inner| - 1] == digits[|digits| - 1];
    DigitsAvoid(digits, ':');
    BracketedShape(inner, [prefix, name, digits]);
  }

  /** The text Discord shows for a custom emoji has no blanks to strip. */
  lemma CustomTokenUnpadded(prefix: string, name: string, digits: string)
    requires prefix == "" || prefix == "a"
    requires IsDigits(digits)
    ensures var token := "<" + (prefix + ":" + name + ":" + digits) + ">";
      Trim(token, Whitespace) == token
  {
    var inner := prefix + ":" + name + ":" + digits;
    assert inner[0] == (if prefix == "a" then 'a' else ':');
    assert inner[|inner| - 1] == digits[|digits| - 1];
    BracketedTrims(inner);
  }

  /**
   * A custom emoji typed as `<:name:id>` (prefix `a` when animated) is
   * stored under the key its reactions carry, whatever name the event reports.
   */
  lemma CustomKeysAgree(prefix: string, name: string, id: nat, eventName: Option<string>)
    requires prefix == "" || prefix == "a"
    requires ':' !in name && id != 0
    ensures var token := "<" + (prefix + ":" + name + ":" + Decimal(id)) + ">";
      NormalizeEmojiFromStr(token).key == NormalizeEmojiFromPayload(PartialEmoji(Some(id), eventName))
  {
    var digits := Decimal(id);
    var token := "<" + (prefix + ":" + name + ":" + digits) + ">";
    var fields := [prefix, name, digits];
    assert CustomShape(Trim(token, Whitespace), fields) by {
      CustomTokenUnpadded(prefix, name, digits);
      CustomTokenShape(prefix, name, digits);
    }
    assert NormalizeEmojiFromStr(token).key == "c:" + digits by {
      NormalizeCustom(token, fields);
    }
  }

  /** A unicode emoji typed without surrounding blanks is stored under the key its reactions carry. */
  lemma LiteralKeysAgree(s: string)
    requires |s| > 0 && s[0] != '<' && s[0] !in Whitespace && s[|s| - 1] !in Whitespace
    ensures NormalizeEmojiFromStr(s) == Binding("u:" + s, s)
    ensures NormalizeEmojiFromStr(s).key == NormalizeEmojiFromPayload(PartialEmoji(None, Some(s)))
  {
    assert TrimLeft(s, Whitespace) == s;
  }

  // ---------------------------------------------------------------- role hierarchy

  /** `can_assign_role`: the bot member must exist and its top role must sit strictly above the role. */
  function CanAssignRole(botTop: Option<int>, rolePosition: int): (r: bool)
    ensures botTop.None? ==> !r
    ensures botTop.Some? && rolePosition >= botTop.value ==> !r
  {
    botTop.Some? && rolePosition < botTop.value
  }

  // ---------------------------------------------------------------- panel rendering

  /** One rendered entry: `display → <@&rid>`. */
  function EntryLine(rid: nat, b: Binding): string
  {
    b.display + " \U{2192} <@&" + Decimal(rid) + ">"
  }

  function EntryLines(entries: OMap<nat, Binding>): seq<string>
  {
    seq(|entries|, i requires 0 <= i < |entries| => EntryLine(entries[i].0, entries[i].1))
  }

  /** The embed title: the stored title, or `Self-Roles: <name>` when it is empty. */
  function PanelTitle(title: string, name: string): string
  {
    if title == "" then "Self-Roles: " + name else title
  }

  /** The embed body: the description, a blank line if both are present, then one line per entry. */
  function PanelBody(description: string, entries: OMap<nat, Binding>): string
  {
    if |entries| == 0 then description
    else (if description == "" then "" else description + "\n\n") + Join(EntryLines(entries), "\n")
  }

  /** The rendering part of `_refresh_panel_embed` for one selector, building `lines` in a loop. */
  method RenderPanel(name: string, conf: Selector) returns (title: string, body: string)
    ensures title == PanelTitle(conf.title, name)
    ensures body == PanelBody(conf.description, conf.entries)
  {
    body := conf.description;
    if |conf.entries| > 0 {
      var lines: seq<string> := [];
      for i := 0 to |conf.entries|
        invariant lines == EntryLines(conf.entries[..i])
      {
        lines := lines + [EntryLine(conf.entries[i].0, conf.entries[i].1)];
      }
      assert conf.entries[..|conf.entries|] == conf.entries;
      body := (if body == "" then "" else body + "\n\n") + Join(lines, "\n");
    }
    title := if conf.title == "" then "Self-Roles: " + name else conf.title;
  }

  lemma EntryLinesAvoidNewline(entries: OMap<nat, Binding>)
    requires forall i :: 0 <= i < |entries| ==> '\n' !in entries[i].1.display
    ensures forall i :: 0 <= i < |EntryLines(entries)| ==> '\n' !in EntryLines(entries)[i]
  {
    forall i | 0 <= i < |entries| ensures '\n' !in EntryLine(entries[i].0, entries[i].1) {
      DigitsAvoid(Decimal(entries[i].0), '\n');
    }
  }

  /**
   * Read back line by line, a body with entries is the description and a
   * blank line (when there is a description), then exactly one line per
   * entry, in entry order (given no newline inside the texts).
   */
  lemma PanelBodyLines(description: string, entries: OMap<nat, Binding>)
    requires |entries| > 0
    requires '\n' !in description
    requires forall i :: 0 <= i < |entries| ==> '\n' !in entries[i].1.display
    ensures Split(PanelBody(description, entries), '\n')
      == (if description == "" then [] else [description, ""]) + EntryLines(entries)
  {
    var lines := EntryLines(entries);
    EntryLinesAvoidNewline(entries);
    var parts := if description == "" then lines else [description, ""] + lines;
    if description != "" {
      assert parts[1..] == [""] + lines;
      assert parts[1..][1..] == lines;
    }
    assert Join(parts, "\n") == PanelBody(description, entries);
    SplitOfJoin(parts, '\n');
  }

  // ---------------------------------------------------------------- unbind

  /** An entry `selfroles_unbind` keeps: not the named role's, and not carrying the named key. */
  predicate Survives(e: (nat, Binding), role: Option<nat>, key: Option<string>)
  {
    (role.None? || e.0 != role.value) && (key.None? || e.1.key != key.value)
  }

  /** The entries that survive an unbind, in their original order. */
  function Surviving(entries: OMap<nat, Binding>, role: Option<nat>, key: Option<string>): (r: OMap<nat, Binding>)
    ensures forall x :: x in r <==> x in entries && Survives(x, role, key)
    ensures |r| <= |entries|
    ensures |r| == |entries| <==> forall i :: 0 <= i < |entries| ==> Survives(entries[i], role, key)
    decreases |entries|
  {
    if |entries| == 0 then []
    else
      var rest := Surviving(entries[1..], role, key);
      assert forall i :: 1 <= i < |entries| ==> entries[i] == entries[1..][i - 1];
      (if Survives(entries[0], role, key) then [entries[0]] else []) + rest
  }

  /** Filtering a concatenation filters each part. */
  lemma {:induction false} SurvivingAppend(a: OMap<nat, Binding>, b: OMap<nat, Binding>, role: Option<nat>, key: Option<string>)
    ensures Surviving(a + b, role, key) == Surviving(a, role, key) + Surviving(b, role, key)
    decreases |a|
  {
    if |a| == 0 {
      assert a + b == b;
    } else {
      var head := if Survives(a[0], role, key) then [a[0]] else [];
      assert Surviving(a + b, role, key) == head + Surviving(a[1..] + b, role, key) by {
        assert (a + b)[0] == a[0] && (a + b)[1..] == a[1..] + b;
      }
      assert Surviving(a[1..] + b, role, key) == Surviving(a[1..], role, key) + Surviving(b, role, key) by {
        SurvivingAppend(a[1..], b, role, key);
      }
      assert Surviving(a, role, key) == head + Surviving(a[1..], role, key);
      SeqAssoc(head, Surviving(a[1..], role, key), Surviving(b, role, key));
    }
  }

  /** Associativity of `+`, which Dafny knows; stating it as a step keeps the proofs that use it cheap. */
  lemma SeqAssoc<T>(x: seq<T>, y: seq<T>, z: seq<T>)
    ensures x + (y + z) == (x + y) + z
  {
  }

  /** The keys that survive were keys before. */
  lemma SurvivingKeys(entries: OMap<nat, Binding>, role: Option<nat>, key: Option<string>, q: nat)
    requires q in Keys(Surviving(entries, role, key))
    ensures q in Keys(entries)
  {
    var r := Surviving(entries, role, key);
    var j :| 0 <= j < |r| && Keys(r)[j] == q;
    assert r[j] in entries;
    var p :| 0 <= p < |entries| && entries[p] == r[j];
    assert Keys(entries)[p] == q;
  }

  /** Unbinding keeps the role ids unique. */
  lemma {:induction false} SurvivingKeepsUnique(entries: OMap<nat, Binding>, role: Option<nat>, key: Option<string>)
    requires UniqueKeys(entries)
    ensures UniqueKeys(Surviving(entries, role, key))
    decreases |entries|
  {
    if |entries| > 0 {
      var rest := Surviving(entries[1..], role, key);
      assert UniqueKeys(rest) by {
        SurvivingKeepsUnique(entries[1..], role, key);
      }
      if Survives(entries[0], role, key) {
        assert forall j :: 0 <= j < |rest| ==> rest[j].0 != entries[0].0 by {
          forall j | 0 <= j < |rest| ensures rest[j].0 != entries[0].0 {
            assert rest[j] in entries[1..];
            var p :| 0 <= p < |entries[1..]| && entries[1..][p] == rest[j];
            assert entries[p + 1] == rest[j];
          }
        }
        UniqueCons(entries[0], rest);
        assert Surviving(entries, role, key) == [entries[0]] + rest;
      } else {
        assert Surviving(entries, role, key) == rest;
      }
    }
  }

  /** Popping one role id is the filter on that id. */
  lemma {:induction false} RemoveIsSurviving(entries: OMap<nat, Binding>, rid: nat)
    ensures Remove(entries, rid) == Surviving(entries, Some(rid), None)
    decreases |entries|
  {
    if |entries| > 0 {
      RemoveIsSurviving(entries[1..], rid);
    }
  }

  /** Removing the role first and then the key is removing both at once. */
  lemma {:induction false} SurvivingInStages(entries: OMap<nat, Binding>, role: Option<nat>, key: Option<string>)
    ensures Surviving(Surviving(entries, role, None), None, key) == Surviving(entries, role, key)
    decreases |entries|
  {
    if |entries| > 0 {
      var e := entries[0];
      var first := Surviving(entries, role, None);
      var rest := Surviving(entries[1..], role, None);
      SurvivingInStages(entries[1..], role, key);
      if Survives(e, role, None) {
        assert first == [e] + rest;
        assert first[1..] == rest;
      } else {
        assert first == rest;
      }
    }
  }

  /** With neither a role nor an emoji, unbinding keeps every entry. */
  lemma {:induction false} SurvivingNothing(entries: OMap<nat, Binding>)
    ensures Surviving(entries, None, None) == entries
    decreases |entries|
  {
    if |entries| > 0 {
      SurvivingNothing(entries[1..]);
    }
  }

  /** With unique ids, the id at position `i` is not among the survivors before it. */
  lemma SurvivorsBeforeLackId(snapshot: OMap<nat, Binding>, i: nat, key: string)
    requires UniqueKeys(snapshot) && i < |snapshot|
    ensures snapshot[i].0 !in Keys(Surviving(snapshot[..i], None, Some(key)))
  {
    var done := Surviving(snapshot[..i], None, Some(key));
    forall j | 0 <= j < |done| ensures Keys(done)[j] != snapshot[i].0 {
      assert done[j] in snapshot[..i];
      var p :| 0 <= p < i && snapshot[..i][p] == done[j];
      assert snapshot[p] == done[j];
    }
  }

  /** The unbind loop's survivors grow by one entry exactly when that entry lacks the key. */
  lemma SurvivingExtend(snapshot: OMap<nat, Binding>, i: nat, key: string)
    requires i < |snapshot|
    ensures Surviving(snapshot[..i + 1], None, Some(key))
      == Surviving(snapshot[..i], None, Some(key)) + (if snapshot[i].1.key != key then [snapshot[i]] else [])
  {
    assert snapshot[..i + 1] == snapshot[..i] + [snapshot[i]];
    SurvivingAppend(snapshot[..i], [snapshot[i]], None, Some(key));
    assert Surviving([snapshot[i]], None, Some(key)) == if snapshot[i].1.key != key then [snapshot[i]] else [];
  }

  /** One step of the unbind loop: popping a matching entry's id from the live entries. */
  lemma PopMatching(snapshot: OMap<nat, Binding>, i: nat, key: string)
    requires UniqueKeys(snapshot) && i < |snapshot| && snapshot[i].1.key == key
    ensures Remove(Surviving(snapshot[..i], None, Some(key)) + snapshot[i..], snapshot[i].0)
      == Surviving(snapshot[..i + 1], None, Some(key)) + snapshot[i + 1..]
    ensures |Surviving(snapshot[..i + 1], None, Some(key))| <= i
  {
    var k := snapshot[i].0;
    var done := Surviving(snapshot[..i], None, Some(key));
    var tail := snapshot[i..];
    assert Remove(done, k) == done by {
      SurvivorsBeforeLackId(snapshot, i, key);
    }
    assert Remove(tail, k) == snapshot[i + 1..] by {
      assert tail[0].0 == k && tail[1..] == snapshot[i + 1..];
    }
    assert Remove(done + tail, k) == Remove(done, k) + Remove(tail, k) by {
      RemoveAppend(done, tail, k);
    }
    assert Surviving(snapshot[..i + 1], None, Some(key)) == done by {
      SurvivingExtend(snapshot, i, key);
      assert done + [] == done;
    }
  }

  /** One step of the unbind loop past an entry that does not match. */
  lemma PassOver(snapshot: OMap<nat, Binding>, i: nat, key: string)
    requires i < |snapshot| && snapshot[i].1.key != key
    ensures Surviving(snapshot[..i], None, Some(key)) + snapshot[i..]
      == Surviving(snapshot[..i + 1], None, Some(key)) + snapshot[i + 1..]
  {
    var done := Surviving(snapshot[..i], None, Some(key));
    assert Surviving(snapshot[..i + 1], None, Some(key)) == done + [snapshot[i]] by {
      SurvivingExtend(snapshot, i, key);
    }
    assert snapshot[i..] == [snapshot[i]] + snapshot[i + 1..];
    SeqAssoc(done, [snapshot[i]], snapshot[i + 1..]);
  }

  /**
   * The emoji half of `selfroles_unbind`: over a snapshot of the entries,
   * pop every entry carrying the key from the live entries.
   */
  method PopKeyed(snapshot: OMap<nat, Binding>, key: string) returns (out: OMap<nat, Binding>, popped: bool)
    requires UniqueKeys(snapshot)
    ensures out == Surviving(snapshot, None, Some(key))
    ensures popped <==> |out| < |snapshot|
  {
    out := snapshot;
    popped := false;
    for i := 0 to |snapshot|
      invariant out == Surviving(snapshot[..i], None, Some(key)) + snapshot[i..]
      invariant popped <==> |out| < |snapshot|
    {
      if snapshot[i].1.key == key {
        PopMatching(snapshot, i, key);
        out := Remove(out, snapshot[i].0);
        assert |out| < |snapshot|;
        popped := true;
      } else {
        PassOver(snapshot, i, key);
      }
    }
    assert snapshot[..|snapshot|] == snapshot;
  }

  /**
   * The entry removal of `selfroles_unbind`: pop the role's entry if present,
   * then every entry carrying the key. `removed` is set exactly when
   * something was popped.
   */
  method RemoveBindings(entries: OMap<nat, Binding>, role: Option<nat>, key: Option<string>)
    returns (out: OMap<nat, Binding>, removed: bool)
    requires UniqueKeys(entries)
    ensures out == Surviving(entries, role, key)
    ensures removed <==> |out| < |entries|
  {
    out := entries;
    removed := false;
    if role.Some? && role.value in Keys(out) {
      out := Remove(out, role.value);
      removed := true;
    }
    if role.Some? {
      RemoveIsSurviving(entries, role.value);
    } else {
      SurvivingNothing(entries);
    }
    SurvivingKeepsUnique(entries, role, None);
    if key.Some? {
      var popped;
      out, popped := PopKeyed(out, key.value);
      removed := removed || popped;
    }
    SurvivingInStages(entries, role, key);
  }

  /** The key an unbind removes by: none when the emoji argument is absent or empty. */
  function UnbindKey(emoji: Option<string>): (r: Option<string>)
    ensures r.Some? <==> emoji.Some? && emoji.value != ""
    ensures r.Some? ==> IsKey(r.value) && r.value == NormalizeEmojiFromStr(emoji.value).key
  {
    if emoji.Some? && emoji.value != "" then Some(NormalizeEmojiFromStr(emoji.value).key) else None
  }

  // ---------------------------------------------------------------- reaction resolution

  /** An entry the reaction handlers act on: matching key, existing role, role below the bot's top role. */
  predicate Actionable(e: (nat, Binding), target: string, roles: map<nat, int>, botTop: Option<int>)
  {
    e.1.key == target && e.0 in roles && CanAssignRole(botTop, roles[e.0])
  }

  /** The position of the first actionable entry. */
  function FirstActionable(entries: OMap<nat, Binding>, target: string, roles: map<nat, int>, botTop: Option<int>)
    : (r: Option<nat>)
    ensures r.Some? ==> r.value < |entries| && Actionable(entries[r.value], target, roles, botTop)
    ensures r.Some? ==> forall j :: 0 <= j < r.value ==> !Actionable(entries[j], target, roles, botTop)
    ensures r.None? ==> forall j :: 0 <= j < |entries| ==> !Actionable(entries[j], target, roles, botTop)
    decreases |entries|
  {
    if |entries| == 0 then None
    else if Actionable(entries[0], target, roles, botTop) then Some(0)
    else
      var rest := FirstActionable(entries[1..], target, roles, botTop);
      assert forall j :: 1 <= j < |entries| ==> entries[j] == entries[1..][j - 1];
      if rest.None? then None else Some(rest.value + 1)
  }

  /** The one role a reaction adds or removes, if any. */
  function ActedRole(entries: OMap<nat, Binding>, target: string, roles: map<nat, int>, botTop: Option<int>)
    : (r: Option<nat>)
    ensures r.Some? ==> r.value in roles && CanAssignRole(botTop, roles[r.value])
    ensures r.Some? ==> exists b :: (r.value, b) in entries && b.key == target
    ensures r.None? <==> forall j :: 0 <= j < |entries| ==> !Actionable(entries[j], target, roles, botTop)
  {
    var i := FirstActionable(entries, target, roles, botTop);
    if i.None? then None
    else
      assert entries[i.value] in entries;
      Some(entries[i.value].0)
  }

  /**
   * The matching loop of `on_raw_reaction_add`/`remove`: walk the entries in
   * order, skip a matching entry whose role is gone or not manageable, and
   * stop at the first one acted on.
   */
  method ResolveReaction(entries: OMap<nat, Binding>, target: string, roles: map<nat, int>, botTop: Option<int>)
    returns (acted: Option<nat>)
    ensures acted == ActedRole(entries, target, roles, botTop)
  {
    for i := 0 to |entries|
      invariant forall j :: 0 <= j < i ==> !Actionable(entries[j], target, roles, botTop)
    {
      var (rid, info) := entries[i];
      if info.key == target {
        if rid !in roles {
          continue;
        }
        if !CanAssignRole(botTop, roles[rid]) {
          continue;
        }
        acted := Some(rid);
        return;
      }
    }
    acted := None;
  }

  /** Without a bot member in the guild no role is ever acted on. */
  lemma NoBotMemberNoAction(entries: OMap<nat, Binding>, target: string, roles: map<nat, int>)
    ensures ActedRole(entries, target, roles, None) == None
  {
    forall j | 0 <= j < |entries| ensures !Actionable(entries[j], target, roles, None) {
    }
  }

  /**
   * Once an emoji not used elsewhere in a selector is bound to a manageable
   * role, a reaction with that emoji's key acts on exactly that role.
   */
  lemma BoundEmojiResolves(entries: OMap<nat, Binding>, rid: nat, b: Binding, roles: map<nat, int>, botTop: Option<int>)
    requires forall i :: 0 <= i < |entries| ==> entries[i].1.key != b.key
    requires rid in roles && CanAssignRole(botTop, roles[rid])
    ensures ActedRole(Put(entries, rid, b), b.key, roles, botTop) == Some(rid)
  {
    var bound := Put(entries, rid, b);
    var i :| 0 <= i < |bound| && bound[i] == (rid, b);
    assert Actionable(bound[i], b.key, roles, botTop);
    var r := ActedRole(bound, b.key, roles, botTop);
    var w :| (r.value, w) in bound && w.key == b.key;
  }

  // ---------------------------------------------------------------- lookup by message

  /** The position of the first selector whose panel is the given message. */
  function FirstWithPanel(sels: OMap<string, Selector>, messageId: int): (r: Option<nat>)
    ensures r.Some? ==> r.value < |sels| && sels[r.value].1.panelId == messageId
    ensures r.Some? ==> forall j :: 0 <= j < r.value ==> sels[j].1.panelId != messageId
    ensures r.None? ==> forall j :: 0 <= j < |sels| ==> sels[j].1.panelId != messageId
    decreases |sels|
  {
    if |sels| == 0 then None
    else if sels[0].1.panelId == messageId then Some(0)
    else
      var rest := FirstWithPanel(sels[1..], messageId);
      assert forall j :: 1 <= j < |sels| ==> sels[j] == sels[1..][j - 1];
      if rest.None? then None else Some(rest.value + 1)
  }

  /** The name and selector `_find_selector_by_message` returns. */
  function SelectorForMessage(sels: OMap<string, Selector>, messageId: int): (r: Option<(string, Selector)>)
    ensures r.Some? ==> r.value in sels && r.value.1.panelId == messageId
    ensures r.None? <==> forall j :: 0 <= j < |sels| ==> sels[j].1.panelId != messageId
  {
    var i := FirstWithPanel(sels, messageId);
    if i.None? then None else Some(sels[i.value])
  }

  /** The loop of `_find_selector_by_message`, returning at the first panel match. */
  method FindByPanel(sels: OMap<string, Selector>, messageId: int) returns (found: Option<(string, Selector)>)
    ensures found == SelectorForMessage(sels, messageId)
  {
    for i := 0 to |sels|
      invariant forall j :: 0 <= j < i ==> sels[j].1.panelId != messageId
    {
      if sels[i].1.panelId == messageId {
        return Some(sels[i]);
      }
    }
    return None;
  }

  // ---------------------------------------------------------------- store updates

  /** Every dictionary in a guild document has unique keys. */
  ghost predicate WellFormedDoc(doc: GuildDoc)
  {
    && UniqueKeys(doc.selectors)
    && forall i :: 0 <= i < |doc.selectors| ==> UniqueKeys(doc.selectors[i].1.entries)
  }

  /** `_g`: the guild's document, created empty on first access. */
  function WithGuild(data: map<int, GuildDoc>, gid: int): (r: map<int, GuildDoc>)
    ensures gid in r && forall g :: g in data ==> g in r && r[g] == data[g]
    ensures r.Keys == data.Keys + {gid}
    ensures gid !in data ==> r[gid] == GuildDoc([])
  {
    if gid in data then data else data[gid := GuildDoc([])]
  }

  /** The entries a selector had under this name, or none. */
  function PriorEntries(sels: OMap<string, Selector>, name: string): OMap<nat, Binding>
  {
    match Get(sels, name)
    case Some(s) => s.entries
    case None => []
  }

  /**
   * `selfroles_create`: the named selector gets the new panel, channel, title
   * and description and keeps the entries it had; an existing name keeps its
   * place, a new one goes last, and the other selectors are untouched.
   */
  function CreateSelector(sels: OMap<string, Selector>, name: string, panelId: int, channelId: int,
                          title: string, description: string): (r: OMap<string, Selector>)
    ensures Get(r, name) == Some(Selector(panelId, channelId, title, description, PriorEntries(sels, name)))
    ensures forall n :: n != name ==> Get(r, n) == Get(sels, n)
    ensures name in Keys(sels) ==> Keys(r) == Keys(sels)
    ensures name !in Keys(sels) ==> Keys(r) == Keys(sels) + [name]
  {
    var s := Selector(panelId, channelId, title, description, PriorEntries(sels, name));
    assert Keys(sels + [(name, s)]) == Keys(sels) + [name];
    Put(sels, name, s)
  }

  /** The panel just posted for a selector leads reactions to that selector, given a fresh message id. */
  lemma CreatedPanelIsFound(sels: OMap<string, Selector>, name: string, panelId: int, channelId: int,
                            title: string, description: string)
    requires forall i :: 0 <= i < |sels| ==> sels[i].1.panelId != panelId
    ensures SelectorForMessage(CreateSelector(sels, name, panelId, channelId, title, description), panelId)
      == Some((name, Selector(panelId, channelId, title, description, PriorEntries(sels, name))))
  {
    var s := Selector(panelId, channelId, title, description, PriorEntries(sels, name));
    var r := CreateSelector(sels, name, panelId, channelId, title, description);
    var i :| 0 <= i < |r| && r[i] == (name, s);
  }

  /** `conf["entries"][str(role.id)] = {...}`: the role's binding is set, other entries keep theirs. */
  function BindEntry(conf: Selector, rid: nat, b: Binding): (r: Selector)
    ensures r.panelId == conf.panelId && r.channelId == conf.channelId
    ensures r.title == conf.title && r.description == conf.description
    ensures Get(r.entries, rid) == Some(b)
    ensures forall q :: q != rid ==> Get(r.entries, q) == Get(conf.entries, q)
  {
    conf.(entries := Put(conf.entries, rid, b))
  }

  /** Unbinding a role just bound leaves the entries as popping it from the old ones would. */
  lemma UnbindUndoesBind(conf: Selector, rid: nat, b: Binding)
    ensures Surviving(BindEntry(conf, rid, b).entries, Some(rid), None) == Remove(conf.entries, rid)
    ensures rid !in Keys(conf.entries) ==> Surviving(BindEntry(conf, rid, b).entries, Some(rid), None) == conf.entries
  {
    RemoveIsSurviving(BindEntry(conf, rid, b).entries, rid);
    RemoveOfPut(conf.entries, rid, b);
  }

  /** Storing a selector with unique entries under a name keeps the document well formed. */
  lemma PutSelectorWellFormed(sels: OMap<string, Selector>, name: string, s: Selector)
    requires WellFormedDoc(GuildDoc(sels)) && UniqueKeys(s.entries)
    ensures WellFormedDoc(GuildDoc(Put(sels, name, s)))
  {
    PutKeepsUnique(sels, name, s);
    var r := Put(sels, name, s);
    forall i | 0 <= i < |r| ensures UniqueKeys(r[i].1.entries) {
      assert r[i] in r;
      if r[i] != (name, s) {
        var p :| 0 <= p < |sels| && sels[p] == r[i];
      }
    }
  }

  /** A stored selector has unique entries. */
  lemma StoredSelectorWellFormed(sels: OMap<string, Selector>, name: string)
    requires WellFormedDoc(GuildDoc(sels)) && Get(sels, name).Some?
    ensures UniqueKeys(Get(sels, name).value.entries)
  {
    var p :| 0 <= p < |sels| && sels[p] == (name, Get(sels, name).value);
  }

  /** Creating or re-creating a selector keeps the document well formed. */
  lemma CreateKeepsWellFormed(sels: OMap<string, Selector>, name: string, panelId: int, channelId: int,
                              title: string, description: string)
    requires WellFormedDoc(GuildDoc(sels))
    ensures WellFormedDoc(GuildDoc(CreateSelector(sels, name, panelId, channelId, title, description)))
  {
    if Get(sels, name).Some? {
      StoredSelectorWellFormed(sels, name);
    }
    PutSelectorWellFormed(sels, name, Selector(panelId, channelId, title, description, PriorEntries(sels, name)));
  }

  /** Deleting a selector keeps the document well formed. */
  lemma RemoveSelectorWellFormed(sels: OMap<string, Selector>, name: string)
    requires WellFormedDoc(GuildDoc(sels))
    ensures WellFormedDoc(GuildDoc(Remove(sels, name)))
  {
    var r := Remove(sels, name);
    forall i | 0 <= i < |r| ensures UniqueKeys(r[i].1.entries) {
      assert r[i] in r;
      var p :| 0 <= p < |sels| && sels[p] == r[i];
    }
  }

  // ---------------------------------------------------------------- panel refresh

  /** A panel edit: which message gets which embed. */
  datatype Edit = Edit(channelId: int, panelId: int, title: string, body: string)

  /** The selectors `_refresh_panel_embed` visits: the named one (looked up), or all of them. */
  function RefreshTargets(sels: OMap<string, Selector>, name: Option<string>): (r: seq<(string, Option<Selector>)>)
    ensures name.Some? && name.value != "" ==> |r| == 1 && r[0].0 == name.value && r[0].1 == Get(sels, name.value)
    ensures (name.None? || name.value == "") ==>
      (|r| == |sels| && forall i :: 0 <= i < |sels| ==> r[i] == (sels[i].0, Some(sels[i].1)))
    ensures forall i :: 0 <= i < |r| && r[i].1.Some? ==> (r[i].0, r[i].1.value) in sels
  {
    if name.Some? && name.value != "" then [(name.value, Get(sels, name.value))]
    else seq(|sels|, i requires 0 <= i < |sels| => (sels[i].0, Some(sels[i].1)))
  }

  /** The edit for one visited selector: none when it is missing or its panel cannot be fetched. */
  function EditFor(t: (string, Option<Selector>), reachable: set<(int, int)>): seq<Edit>
  {
    if t.1.None? || (t.1.value.channelId, t.1.value.panelId) !in reachable then []
    else
      var c := t.1.value;
      [Edit(c.channelId, c.panelId, PanelTitle(c.title, t.0), PanelBody(c.description, c.entries))]
  }

  /** The edits of a refresh, in visiting order. */
  function PanelEdits(targets: seq<(string, Option<Selector>)>, reachable: set<(int, int)>): (r: seq<Edit>)
    ensures |r| <= |targets|
    ensures forall e :: e in r ==> (e.channelId, e.panelId) in reachable
    ensures forall e :: e in r ==> exists i, c :: (0 <= i < |targets| && targets[i].1 == Some(c)
      && e == Edit(c.channelId, c.panelId, PanelTitle(c.title, targets[i].0), PanelBody(c.description, c.entries)))
    decreases |targets|
  {
    if |targets| == 0 then []
    else
      var n := |targets| - 1;
      var prefix := PanelEdits(targets[..n], reachable);
      var r := prefix + EditFor(targets[n], reachable);
      PanelEditsExtend(targets, targets[..n], reachable, prefix, r);
      r
  }

  /** Every visited selector that still exists and whose panel can be fetched is re-rendered. */
  lemma {:induction false} PanelEditsComplete(targets: seq<(string, Option<Selector>)>, reachable: set<(int, int)>,
                                             i: nat, c: Selector)
    requires i < |targets| && targets[i].1 == Some(c) && (c.channelId, c.panelId) in reachable
    ensures Edit(c.channelId, c.panelId, PanelTitle(c.title, targets[i].0), PanelBody(c.description, c.entries))
      in PanelEdits(targets, reachable)
    decreases |targets|
  {
    var n := |targets| - 1;
    if i < n {
      assert targets[..n][i] == targets[i];
      PanelEditsComplete(targets[..n], reachable, i, c);
    }
  }

  /** Edits come in visiting order: refreshing `a` then `b` is refreshing `a + b`. */
  lemma {:induction false} PanelEditsAppend(a: seq<(string, Option<Selector>)>, b: seq<(string, Option<Selector>)>,
                                           reachable: set<(int, int)>)
    ensures PanelEdits(a + b, reachable) == PanelEdits(a, reachable) + PanelEdits(b, reachable)
    decreases |b|
  {
    if |b| == 0 {
      assert a + b == a;
    } else {
      var m := |b| - 1;
      var last := EditFor(b[m], reachable);
      assert PanelEdits(a + b, reachable) == PanelEdits(a + b[..m], reachable) + last by {
        assert (a + b)[..|a + b| - 1] == a + b[..m];
        assert (a + b)[|a + b| - 1] == b[m];
      }
      PanelEditsAppend(a, b[..m], reachable);
      SeqAssoc(PanelEdits(a, reachable), PanelEdits(b[..m], reachable), last);
    }
  }

  /** The step of `PanelEdits`: what holds of the edits for all but the last target extends to all. */
  lemma PanelEditsExtend(targets: seq<(string, Option<Selector>)>, init: seq<(string, Option<Selector>)>,
                         reachable: set<(int, int)>, prefix: seq<Edit>, r: seq<Edit>)
    requires |targets| > 0 && init == targets[..|targets| - 1]
    requires r == prefix + EditFor(targets[|targets| - 1], reachable)
    requires forall e :: e in prefix ==> (e.channelId, e.panelId) in reachable
    requires forall e :: e in prefix ==> exists i, c :: (0 <= i < |init| && init[i].1 == Some(c)
      && e == Edit(c.channelId, c.panelId, PanelTitle(c.title, init[i].0), PanelBody(c.description, c.entries)))
    ensures forall e :: e in r ==> (e.channelId, e.panelId) in reachable
    ensures forall e :: e in r ==> exists i, c :: (0 <= i < |targets| && targets[i].1 == Some(c)
      && e == Edit(c.channelId, c.panelId, PanelTitle(c.title, targets[i].0), PanelBody(c.description, c.entries)))
  {
    var n := |targets| - 1;
    var last := EditFor(targets[n], reachable);
    forall e | e in r ensures exists i, c :: (0 <= i < |targets| && targets[i].1 == Some(c)
      && e == Edit(c.channelId, c.panelId, PanelTitle(c.title, targets[i].0), PanelBody(c.description, c.entries)))
    {
      if e in prefix {
        var i, c :| 0 <= i < |init| && init[i].1 == Some(c)
          && e == Edit(c.channelId, c.panelId, PanelTitle(c.title, init[i].0), PanelBody(c.description, c.entries));
        assert init[i] == targets[i];
      } else {
        assert e in last;
        var c := targets[n].1.value;
        assert targets[n].1 == Some(c);
      }
    }
  }

  /** The loop of `_refresh_panel_embed`: render and edit each visited panel that can be fetched. */
  method EditPanels(targets: seq<(string, Option<Selector>)>, reachable: set<(int, int)>) returns (edits: seq<Edit>)
    ensures edits == PanelEdits(targets, reachable)
  {
    edits := [];
    for i := 0 to |targets|
      invariant edits == PanelEdits(targets[..i], reachable)
    {
      assert PanelEdits(targets[..i + 1], reachable) == edits + EditFor(targets[i], reachable) by {
        assert targets[..i + 1][..i] == targets[..i];
      }
      var (selName, conf) := targets[i];
      if conf.None? || (conf.value.channelId, conf.value.panelId) !in reachable {
        assert edits + EditFor(targets[i], reachable) == edits;
        continue;
      }
      var title, body := RenderPanel(selName, conf.value);
      edits := edits + [Edit(conf.value.channelId, conf.value.panelId, title, body)];
    }
    assert targets[..|targets|] == targets;
  }

  /** A refresh of all selectors re-renders every stored selector whose panel can be fetched. */
  lemma RefreshAllComplete(sels: OMap<string, Selector>, reachable: set<(int, int)>, i: nat)
    requires i < |sels| && (sels[i].1.channelId, sels[i].1.panelId) in reachable
    ensures Edit(sels[i].1.channelId, sels[i].1.panelId, PanelTitle(sels[i].1.title, sels[i].0),
                 PanelBody(sels[i].1.description, sels[i].1.entries))
      in PanelEdits(RefreshTargets(sels, None), reachable)
  {
    var t := RefreshTargets(sels, None);
    assert t[i] == (sels[i].0, Some(sels[i].1));
    PanelEditsComplete(t, reachable, i, sels[i].1);
  }

  // ---------------------------------------------------------------- command replies

  /** What `selfroles_bind` learns when it fetches the panel after saving. */
  datatype PanelLookup = PanelFound | PanelNotFound | ChannelMissing | FetchFailed

  /** The reply of `selfroles_bind`; `NoReply` is an exception escaping the command. */
  datatype BindOutcome = SelectorNotFound | RoleNotManageable | PanelMissing | Bound | NoReply

  /** The reply after saving as the code is written: a deleted channel is looked up as `None` and used. */
  function BindReplyAsWritten(panel: PanelLookup): (r: BindOutcome)
    ensures r == Bound <==> panel == PanelFound
    ensures r == PanelMissing <==> panel == PanelNotFound
  {
    match panel
    case PanelFound => Bound
    case PanelNotFound => PanelMissing
    case ChannelMissing => NoReply
    case FetchFailed => NoReply
  }

  /** As written, binding into a selector whose channel was deleted answers nothing. */
  lemma DeletedChannelGetsNoReply()
    ensures BindReplyAsWritten(ChannelMissing) == NoReply
    ensures BindReply(ChannelMissing) == PanelMissing
  {
  }

  /** The reply after saving, with a missing channel reported like a missing panel. */
  function BindReply(panel: PanelLookup): (r: BindOutcome)
    ensures r == Bound <==> panel == PanelFound
    ensures r == PanelMissing <==> panel == PanelNotFound || panel == ChannelMissing
    ensures r == NoReply <==> panel == FetchFailed
  {
    match panel
    case PanelFound => Bound
    case PanelNotFound => PanelMissing
    case ChannelMissing => PanelMissing
    case FetchFailed => NoReply
  }

  // ---------------------------------------------------------------- the cog's state

  /** The member a reaction event resolves to. */
  datatype Member = Member(isBot: bool)

  /** The cog's in-memory `data`: guild id to guild document. */
  class Registry {
    var data: map<int, GuildDoc>

    ghost predicate Valid()
      reads this
    {
      forall g :: g in data ==> WellFormedDoc(data[g])
    }

    /** The loaded document; parsed JSON objects have unique keys. */
    constructor (loaded: map<int, GuildDoc>)
      requires forall g :: g in loaded ==> WellFormedDoc(loaded[g])
      ensures data == loaded && Valid()
    {
      data := loaded;
    }

    /** `_g`. */
    method G(gid: int) returns (doc: GuildDoc)
      requires Valid()
      modifies this
      ensures Valid()
      ensures data == WithGuild(old(data), gid) && doc == data[gid]
    {
      if gid !in data {
        data := data[gid := GuildDoc([])];
      }
      doc := data[gid];
    }

    /** `_get_selector`. */
    method GetSelector(gid: int, name: string) returns (conf: Option<Selector>)
      requires Valid()
      modifies this
      ensures Valid()
      ensures data == WithGuild(old(data), gid) && conf == Get(data[gid].selectors, name)
    {
      var doc := G(gid);
      conf := Get(doc.selectors, name);
    }

    /** `_find_selector_by_message`. */
    method FindSelectorByMessage(gid: int, messageId: int) returns (found: Option<(string, Selector)>)
      requires Valid()
      modifies this
      ensures Valid()
      ensures data == WithGuild(old(data), gid)
      ensures found == SelectorForMessage(data[gid].selectors, messageId)
    {
      var doc := G(gid);
      found := FindByPanel(doc.selectors, messageId);
    }

    /**
     * `selfroles_create`; `sent` is the id of the freshly posted panel
     * message, or `None` when posting raised.
     */
    method Create(gid: int, name: string, channelId: int, title: string, description: string, sent: Option<int>)
      returns (created: bool)
      requires Valid()
      modifies this
      ensures Valid()
      ensures created <==> sent.Some?
      ensures var w := WithGuild(old(data), gid);
        data == if sent.None? then w
                else w[gid := GuildDoc(CreateSelector(w[gid].selectors, name, sent.value, channelId, title, description))]
    {
      var doc := G(gid);
      if sent.None? {
        return false;
      }
      CreateKeepsWellFormed(doc.selectors, name, sent.value, channelId, title, description);
      data := data[gid := GuildDoc(CreateSelector(doc.selectors, name, sent.value, channelId, title, description))];
      created := true;
    }

    /**
     * `selfroles_bind`; the role is its id and position, `botTop` the bot's
     * top-role position, `panel` the outcome of fetching the panel.
     * The binding is saved before the panel is fetched.
     */
    method Bind(gid: int, name: string, emoji: string, roleId: nat, rolePosition: int,
                botTop: Option<int>, panel: PanelLookup) returns (outcome: BindOutcome)
      requires Valid()
      modifies this
      ensures Valid()
      ensures var w := WithGuild(old(data), gid);
        var conf := Get(w[gid].selectors, name);
        if conf.None? then outcome == SelectorNotFound && data == w
        else if !CanAssignRole(botTop, rolePosition) then outcome == RoleNotManageable && data == w
        else
          && outcome == BindReplyAsWritten(panel)
          && data == w[gid := GuildDoc(Put(w[gid].selectors, name,
                                          BindEntry(conf.value, roleId, NormalizeEmojiFromStr(emoji))))]
    {
      var conf := GetSelector(gid, name);
      if conf.None? {
        return SelectorNotFound;
      }
      if !CanAssignRole(botTop, rolePosition) {
        return RoleNotManageable;
      }
      var sels := data[gid].selectors;
      var bound := BindEntry(conf.value, roleId, NormalizeEmojiFromStr(emoji));
      assert WellFormedDoc(GuildDoc(Put(sels, name, bound))) by {
        StoredSelectorWellFormed(sels, name);
        PutKeepsUnique(conf.value.entries, roleId, NormalizeEmojiFromStr(emoji));
        PutSelectorWellFormed(sels, name, bound);
      }
      data := data[gid := GuildDoc(Put(sels, name, bound))];
      outcome := BindReplyAsWritten(panel);
    }

    /**
     * `selfroles_unbind`; `None` when the selector does not exist, else
     * whether anything was removed. An empty emoji argument counts as absent.
     */
    method Unbind(gid: int, name: string, emoji: Option<string>, role: Option<nat>) returns (removed: Option<bool>)
      requires Valid()
      modifies this
      ensures Valid()
      ensures var w := WithGuild(old(data), gid);
        var conf := Get(w[gid].selectors, name);
        if conf.None? then removed == None && data == w
        else
          (var kept := Surviving(conf.value.entries, role, UnbindKey(emoji));
           && removed == Some(|kept| < |conf.value.entries|)
           && data == w[gid := GuildDoc(Put(w[gid].selectors, name, conf.value.(entries := kept)))])
    {
      var conf := GetSelector(gid, name);
      if conf.None? {
        return None;
      }
      var sels := data[gid].selectors;
      assert UniqueKeys(conf.value.entries) by {
        StoredSelectorWellFormed(sels, name);
      }
      var kept, any := RemoveBindings(conf.value.entries, role, UnbindKey(emoji));
      assert WellFormedDoc(GuildDoc(Put(sels, name, conf.value.(entries := kept)))) by {
        SurvivingKeepsUnique(conf.value.entries, role, UnbindKey(emoji));
        PutSelectorWellFormed(sels, name, conf.value.(entries := kept));
      }
      data := data[gid := GuildDoc(Put(sels, name, conf.value.(entries := kept)))];
      removed := Some(any);
    }

    /** `selfroles_delete`: removes exactly the named selector. */
    method Delete(gid: int, name: string) returns (deleted: bool)
      requires Valid()
      modifies this
      ensures Valid()
      ensures var w := WithGuild(old(data), gid);
        && (deleted <==> name in Keys(w[gid].selectors))
        && data == w[gid := GuildDoc(Remove(w[gid].selectors, name))]
    {
      var doc := G(gid);
      deleted := name in Keys(doc.selectors);
      RemoveSelectorWellFormed(doc.selectors, name);
      data := data[gid := GuildDoc(Remove(doc.selectors, name))];
    }

    /**
     * `_refresh_panel_embed`; `reachable` holds the (channel, message) pairs
     * whose panel message can be fetched.
     */
    method RefreshPanels(gid: int, name: Option<string>, reachable: set<(int, int)>) returns (edits: seq<Edit>)
      requires Valid()
      modifies this
      ensures Valid()
      ensures data == WithGuild(old(data), gid)
      ensures edits == PanelEdits(RefreshTargets(data[gid].selectors, name), reachable)
    {
      var doc := G(gid);
      var targets := RefreshTargets(doc.selectors, name);
      edits := EditPanels(targets, reachable);
    }

    /**
     * `on_raw_reaction_add`; `guildCached` says whether the guild is known,
     * `member` is what resolving the reacting user gave, `roles` the guild's
     * roles by id with their positions. Returns the role added, if any.
     */
    method OnReactionAdd(guildId: Option<int>, guildCached: bool, messageId: int, member: Option<Member>,
                         emoji: PartialEmoji, roles: map<nat, int>, botTop: Option<int>) returns (acted: Option<nat>)
      requires Valid()
      modifies this
      ensures Valid()
      ensures guildId.None? || !guildCached ==> data == old(data) && acted == None
      ensures guildId.Some? && guildCached ==>
        && data == WithGuild(old(data), guildId.value)
        && var found := SelectorForMessage(data[guildId.value].selectors, messageId);
           acted == if found.None? || member.None? || member.value.isBot then None
                    else ActedRole(found.value.1.entries, NormalizeEmojiFromPayload(emoji), roles, botTop)
    {
      if guildId.None? || !guildCached {
        return None;
      }
      var found := FindSelectorByMessage(guildId.value, messageId);
      if found.None? || member.None? || member.value.isBot {
        return None;
      }
      acted := ResolveReaction(found.value.1.entries, NormalizeEmojiFromPayload(emoji), roles, botTop);
    }

    /** `on_raw_reaction_remove`: as adding, without the bot filter. Returns the role removed, if any. */
    method OnReactionRemove(guildId: Option<int>, guildCached: bool, messageId: int, member: Option<Member>,
                            emoji: PartialEmoji, roles: map<nat, int>, botTop: Option<int>) returns (acted: Option<nat>)
      requires Valid()
      modifies this
      ensures Valid()
      ensures guildId.None? || !guildCached ==> data == old(data) && acted == None
      ensures guildId.Some? && guildCached ==>
        && data == WithGuild(old(data), guildId.value)
        && var found := SelectorForMessage(data[guildId.value].selectors, messageId);
           acted == if found.None? || member.None? then None
                    else ActedRole(found.value.1.entries, NormalizeEmojiFromPayload(emoji), roles, botTop)
    {
      if guildId.None? || !guildCached {
        return None;
      }
      var found := FindSelectorByMessage(guildId.value, messageId);
      if found.None? || member.None? {
        return None;
      }
      acted := ResolveReaction(found.value.1.entries, NormalizeEmojiFromPayload(emoji), roles, botTop);
    }
  }
}
