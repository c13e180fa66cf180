/**
 Which file a log message goes to, and what is written there: cyber/logger/logger_util.h.
*/
module LoggerUtil {
  import opened Common

  // The first place of `c` at or after `from`.
  function IndexOf(s: string, c: char, from: nat): (r: Option<nat>)
    requires from <= |s|
    ensures r.Some? ==> from <= r.value < |s| && s[r.value] == c && c !in s[from..r.value]
    ensures r.None? ==> c !in s[from..]
    decreases |s| - from
  {
    if from == |s| then None
    else if s[from] == c then Some(from)
    else IndexOf(s, c, from + 1)
  }

  // A message and the module it is for.
  datatype Routed = Routed(name: string, text: string)

  // `given` is what the module name was before, `group` the process group.
  function Route(text: string, given: string, group: string): Routed {
    var l := IndexOf(text, '[', 0);
    var r := if l.Some? then IndexOf(text, ']', l.value) else None;
    var name := if r.Some? then text[l.value + 1..r.value] else given;
    Routed(if name == "" then group else name,
           if r.Some? then text[..l.value] + text[r.value + 1..] else text)
  }

  // The first character found is the only place with none of its kind before it.
  lemma IndexOfIsFirst(s: string, c: char, from: nat, i: nat)
    requires from <= i < |s| && s[i] == c && c !in s[from..i]
    ensures IndexOf(s, c, from) == Some(i)
  {
  }

  // A bracketed module name goes through: it is found, and exactly the bracket is erased.
  lemma RouteFindsTheName(prefix: string, name: string, rest: string, given: string, group: string)
    requires '[' !in prefix && ']' !in name
    ensures Route(prefix + "[" + name + "]" + rest, given, group) ==
            Routed(if name == "" then group else name, prefix + rest)
  {
    var text := prefix + "[" + name + "]" + rest;
    var l, r := |prefix|, |prefix| + 1 + |name|;
    assert text[0..l] == prefix;
    IndexOfIsFirst(text, '[', 0, l);
    assert text[l..r] == "[" + name;
    IndexOfIsFirst(text, ']', l, r);
    assert text[l + 1..r] == name && text[..l] == prefix && text[r + 1..] == rest;
  }

  // The three parts of a bracketed message, in any way it can be read.
  ghost predicate IsReading(text: string, prefix: string, name: string, rest: string) {
    '[' !in prefix && ']' !in name && text == prefix + "[" + name + "]" + rest
  }

  // Whether a message has a closed bracket, said without searching: its first '[' has a ']' after it.
  ghost predicate Bracketed(text: string) {
    exists prefix: string, name: string, rest: string :: IsReading(text, prefix, name, rest)
  }

  lemma FoundMeansBracketed(text: string, l: nat, r: nat)
    requires IndexOf(text, '[', 0) == Some(l) && IndexOf(text, ']', l) == Some(r)
    ensures Bracketed(text)
  {
    var prefix, name, rest := text[..l], text[l + 1..r], text[r + 1..];
    assert prefix == text[0..l];
    forall i | 0 <= i < |name| ensures name[i] != ']' {
      assert text[l..r][i + 1] == name[i];
    }
    assert IsReading(text, prefix, name, rest);
  }

  lemma BracketedIsShortened(text: string, given: string, group: string)
    requires Bracketed(text)
    ensures |Route(text, given, group).text| < |text|
  {
    var prefix, name, rest :| IsReading(text, prefix, name, rest);
    RouteFindsTheName(prefix, name, rest, given, group);
  }

  // A message is left as it is exactly when it has no closed bracket; then the name given
  // before, or else the process group, is used.
  lemma UntouchedExactlyWithoutBracket(text: string, given: string, group: string)
    ensures Route(text, given, group).text == text <==> !Bracketed(text)
    ensures !Bracketed(text) ==> Route(text, given, group).name == if given == "" then group else given
  {
    if Bracketed(text) {
      BracketedIsShortened(text, given, group);
    } else {
      var l := IndexOf(text, '[', 0);
      if l.Some? && IndexOf(text, ']', l.value).Some? {
        FoundMeansBracketed(text, l.value, IndexOf(text, ']', l.value).value);
      }
    }
  }

  // The module that a message is for, and the message without the bracket, said without searching.
  ghost function ModuleOf(text: string, group: string): string {
    if Bracketed(text) then
      var prefix: string, name: string, rest: string :| IsReading(text, prefix, name, rest);
      if name == "" then group else name
    else group
  }

  ghost function WithoutBracket(text: string): string {
    if Bracketed(text) then
      var prefix: string, name: string, rest: string :| IsReading(text, prefix, name, rest);
      prefix + rest
    else text
  }

  // A message can be read in one way only.
  lemma OneReading(prefix: string, name: string, rest: string, group: string)
    requires '[' !in prefix && ']' !in name
    ensures var text := prefix + "[" + name + "]" + rest;
            ModuleOf(text, group) == (if name == "" then group else name) && WithoutBracket(text) == prefix + rest
  {
    var text := prefix + "[" + name + "]" + rest;
    assert IsReading(text, prefix, name, rest);
    RouteIsMeant(text, group);
    RouteFindsTheName(prefix, name, rest, "", group);
  }

  // The search finds what is meant.
  lemma RouteIsMeant(text: string, group: string)
    ensures Route(text, "", group) == Routed(ModuleOf(text, group), WithoutBracket(text))
  {
    if Bracketed(text) {
      forall prefix: string, name: string, rest: string | IsReading(text, prefix, name, rest)
        ensures Route(text, "", group) == Routed(if name == "" then group else name, prefix + rest)
      {
        RouteFindsTheName(prefix, name, rest, "", group);
      }
    } else {
      UntouchedExactlyWithoutBracket(text, "", group);
    }
  }

  method Find(s: string, c: char, from: nat) returns (pos: Option<nat>)
    requires from <= |s|
    ensures pos == IndexOf(s, c, from)
  {
    var i := from;
    while i < |s| && s[i] != c
      invariant from <= i <= |s|
      invariant IndexOf(s, c, from) == IndexOf(s, c, i)
    {
      i := i + 1;
    }
    return if i < |s| then Some(i) else None;
  }

  lemma Cut(s: string, l: nat, r: nat)
    requires l < r < |s|
    ensures s[l + 1..][..r - l - 1] == s[l + 1..r]
  {
  }

  // Both parameters are changed through their pointers.
  method FindModuleName(log_message: string, module_name: string, processGroup: string)
    returns (log_message': string, module_name': string)
    ensures Routed(module_name', log_message') == Route(log_message, module_name, processGroup)
  {
    hide IndexOf;
    log_message', module_name' := log_message, module_name;
    var lpos := Find(log_message, '[', 0);
    if lpos.Some? {
      var rpos := Find(log_message, ']', lpos.value);
      if rpos.Some? {
        module_name' := log_message[lpos.value + 1..][..rpos.value - lpos.value - 1];
        Cut(log_message, lpos.value, rpos.value);
        var cut_length := rpos.value - lpos.value + 1;
        log_message' := log_message[..lpos.value] + log_message[lpos.value + cut_length..];
      }
    }
    if module_name' == "" {
      module_name' := processGroup;
    }
  }
}
