/** The account adapter: builds e-mail confirmation links from a configured template and
    rewrites the password-reset link in outgoing mail so that it points at the frontend.
    The templates use Python's `str.format` with keyword arguments. */
module AccountAdapter {
  import opened Wrappers
  import opened Text

  /* ------------------------------------------------------------ str.format */

  /** Length of the run at the start of `s` that holds no brace. */
  function FieldLength(s: string): (k: nat)
    ensures k <= |s|
    ensures forall i :: 0 <= i < k ==> s[i] != '{' && s[i] != '}'
    ensures k == |s| || s[k] == '{' || s[k] == '}'
    decreases |s|
  {
    if |s| == 0 || s[0] == '{' || s[0] == '}' then 0 else 1 + FieldLength(s[1..])
  }

  /** A replacement field that names a keyword argument and nothing more: not empty, not
      a positional index, no attribute, index, conversion or format specification. */
  predicate IsKeywordName(name: string) {
    && name != []
    && (exists i :: 0 <= i < |name| && !IsDigit(name[i]))
    && (forall i :: 0 <= i < |name| ==> name[i] !in "{}:!.[")
  }

  /** `template.format(**args)` for templates whose fields are keyword names: doubled
      braces stand for one brace, `{name}` for the argument's text. None stands for the
      exception Python raises: an unmatched brace (ValueError), an unknown name
      (KeyError), a positional field (IndexError), and fields outside this subset. */
  function Format(template: string, args: map<string, string>): (r: Option<string>)
    ensures (forall i :: 0 <= i < |template| ==> template[i] != '{' && template[i] != '}') ==> r == Some(template)
    decreases |template|
  {
    if |template| == 0 then Some("")
    else if template[0] == '{' then
      if |template| > 1 && template[1] == '{' then
        match Format(template[2..], args)
        case Some(rest) => Some("{" + rest)
        case None => None
      else
        var k := FieldLength(template[1..]);
        if 1 + k == |template| || template[1 + k] == '{' then None
        else
          var name := template[1..1 + k];
          if !IsKeywordName(name) || name !in args then None
          else
            match Format(template[2 + k..], args)
            case Some(rest) => Some(args[name] + rest)
            case None => None
    else if template[0] == '}' then
      if |template| > 1 && template[1] == '}' then
        match Format(template[2..], args)
        case Some(rest) => Some("}" + rest)
        case None => None
      else None
    else
      assert template == [template[0]] + template[1..];
      match Format(template[1..], args)
      case Some(rest) => Some([template[0]] + rest)
      case None => None
  }

  /** A template as a sequence of literal characters and named fields. */
  datatype Piece = Lit(c: char) | Field(name: string)

  /** The template text that spells `pieces`, braces in literals doubled. */
  function Spell(pieces: seq<Piece>): string
    decreases |pieces|
  {
    if |pieces| == 0 then ""
    else
      (match pieces[0]
       case Lit(c) => if c == '{' || c == '}' then [c, c] else [c]
       case Field(name) => "{" + name + "}")
      + Spell(pieces[1..])
  }

  /** The text `pieces` stands for once every field is replaced by its argument. */
  function Fill(pieces: seq<Piece>, args: map<string, string>): string
    requires forall i :: 0 <= i < |pieces| && pieces[i].Field? ==> pieces[i].name in args
    decreases |pieces|
  {
    if |pieces| == 0 then ""
    else
      (match pieces[0]
       case Lit(c) => [c]
       case Field(name) => args[name])
      + Fill(pieces[1..], args)
  }

  predicate WellFormed(pieces: seq<Piece>, args: map<string, string>) {
    forall i :: 0 <= i < |pieces| && pieces[i].Field? ==> IsKeywordName(pieces[i].name) && pieces[i].name in args
  }

  lemma FieldLengthOfName(name: string, rest: string)
    requires IsKeywordName(name)
    ensures FieldLength(name + "}" + rest) == |name|
  {
    var s := name + "}" + rest;
    assert forall i :: 0 <= i < |name| ==> s[i] == name[i];
    assert s[|name|] == '}';
  }

  /** One ordinary character is copied through. */
  lemma FormatPlainChar(c: char, rest: string, args: map<string, string>)
    requires c != '{' && c != '}'
    ensures Format([c] + rest, args) ==
      match Format(rest, args) case Some(r) => Some([c] + r) case None => None
  {
    assert ([c] + rest)[1..] == rest;
  }

  /** A doubled brace is read as one brace. */
  lemma FormatDoubledBrace(c: char, rest: string, args: map<string, string>)
    requires c == '{' || c == '}'
    ensures Format([c, c] + rest, args) ==
      match Format(rest, args) case Some(r) => Some([c] + r) case None => None
  {
    assert ([c, c] + rest)[2..] == rest;
  }

  /** A keyword field is replaced by its argument. */
  lemma FormatField(name: string, rest: string, args: map<string, string>)
    requires IsKeywordName(name) && name in args
    ensures Format("{" + name + "}" + rest, args) ==
      match Format(rest, args) case Some(r) => Some(args[name] + r) case None => None
  {
    FieldLayout(name, rest);
  }

  /** Where the parts of a spelled field sit in the text. */
  lemma FieldLayout(name: string, rest: string)
    requires IsKeywordName(name)
    ensures var t := "{" + name + "}" + rest;
      && |t| == |name| + 2 + |rest| && t[0] == '{' && t[1] != '{'
      && FieldLength(t[1..]) == |name| && t[1 + |name|] == '}'
      && t[1..1 + |name|] == name && t[2 + |name|..] == rest
  {
    var t := "{" + name + "}" + rest;
    assert t[1..] == name + "}" + rest;
    FieldLengthOfName(name, rest);
    assert t[1] == name[0];
    assert t[1 + |name|] == '}';
    assert t[1..1 + |name|] == name;
    assert t[2 + |name|..] == rest;
  }

  /** Formatting the spelling of a template fills in its fields: `Format` reads back
      exactly what `Spell` writes. */
  lemma {:induction false} FormatSpelled(pieces: seq<Piece>, args: map<string, string>)
    requires WellFormed(pieces, args)
    ensures Format(Spell(pieces), args) == Some(Fill(pieces, args))
    decreases |pieces|
  {
    if |pieces| > 0 {
      var rest := Spell(pieces[1..]);
      FormatSpelled(pieces[1..], args);
      match pieces[0]
      case Lit(c) =>
        if c == '{' || c == '}' {
          FormatDoubledBrace(c, rest, args);
        } else {
          FormatPlainChar(c, rest, args);
        }
      case Field(name) =>
        FormatField(name, rest, args);
    }
  }

  /* -------------------------------------------------------------- adapter */

  /** `get_email_confirmation_url`: the configured template with `{key}` filled in. */
  function ConfirmationUrl(template: string, key: string): (r: Option<string>)
    ensures (forall i :: 0 <= i < |template| ==> template[i] != '{' && template[i] != '}') ==> r == Some(template)
  {
    Format(template, map["key" := key])
  }

  /** A template ending in `{key}` after brace-free text yields that text and the key. */
  lemma ConfirmationUrlOfPrefix(prefix: string, key: string)
    requires forall i :: 0 <= i < |prefix| ==> prefix[i] != '{' && prefix[i] != '}'
    ensures ConfirmationUrl(prefix + "{key}", key) == Some(prefix + key)
  {
    var pieces := Literal(prefix) + [Field("key")];
    var args := map["key" := key];
    assert IsKeywordName("key") by { assert !IsDigit("key"[0]); }
    assert WellFormed(pieces, args);
    assert Spell([Field("key")]) == "{key}" + "";
    assert Fill([Field("key")], args) == key + "";
    LiteralSpelling(prefix, [Field("key")], args);
    assert Spell(pieces) == prefix + "{key}";
    assert Fill(pieces, args) == prefix + key;
    FormatSpelled(pieces, args);
    assert Format(Spell(pieces), args) == Some(Fill(pieces, args));
  }

  /** Brace-free text as literal pieces. */
  function Literal(text: string): (pieces: seq<Piece>)
    ensures |pieces| == |text| && forall i :: 0 <= i < |text| ==> pieces[i] == Lit(text[i])
  {
    seq(|text|, i requires 0 <= i < |text| => Lit(text[i]))
  }

  /** Peeling the first character off a literal prefix. */
  lemma LiteralCons(prefix: string, tail: seq<Piece>)
    requires |prefix| > 0
    ensures Literal(prefix) + tail == [Lit(prefix[0])] + (Literal(prefix[1..]) + tail)
  {
    assert Literal(prefix) == [Lit(prefix[0])] + Literal(prefix[1..]);
  }

  /** A literal prefix adds no fields: those of the whole are those of the tail. */
  lemma LiteralFields(prefix: string, tail: seq<Piece>, args: map<string, string>)
    requires forall i :: 0 <= i < |tail| && tail[i].Field? ==> tail[i].name in args
    ensures forall i :: 0 <= i < |Literal(prefix) + tail| && (Literal(prefix) + tail)[i].Field? ==>
      (Literal(prefix) + tail)[i].name in args
  {
    var pieces := Literal(prefix) + tail;
    forall i | 0 <= i < |pieces| && pieces[i].Field?
      ensures pieces[i].name in args
    {
      assert i >= |prefix| && pieces[i] == tail[i - |prefix|];
    }
  }

  lemma {:induction false} LiteralSpelling(prefix: string, tail: seq<Piece>, args: map<string, string>)
    requires forall i :: 0 <= i < |prefix| ==> prefix[i] != '{' && prefix[i] != '}'
    requires forall i :: 0 <= i < |tail| && tail[i].Field? ==> tail[i].name in args
    ensures Spell(Literal(prefix) + tail) == prefix + Spell(tail)
    ensures Fill(Literal(prefix) + tail, args) == prefix + Fill(tail, args)
  {
    LiteralSpelled(prefix, tail);
    LiteralFilled(prefix, tail, args);
  }

  lemma {:induction false} LiteralSpelled(prefix: string, tail: seq<Piece>)
    requires forall i :: 0 <= i < |prefix| ==> prefix[i] != '{' && prefix[i] != '}'
    ensures Spell(Literal(prefix) + tail) == prefix + Spell(tail)
    decreases |prefix|
  {
    if |prefix| > 0 {
      var c := prefix[0];
      var rest := Literal(prefix[1..]) + tail;
      LiteralSpelled(prefix[1..], tail);
      LiteralCons(prefix, tail);
      assert ([Lit(c)] + rest)[1..] == rest;
      assert Spell([Lit(c)] + rest) == [c] + Spell(rest);
      assert prefix == [c] + prefix[1..];
    } else {
      assert Literal(prefix) + tail == tail;
    }
  }

  lemma {:induction false} LiteralFilled(prefix: string, tail: seq<Piece>, args: map<string, string>)
    requires forall i :: 0 <= i < |tail| && tail[i].Field? ==> tail[i].name in args
    ensures forall i :: 0 <= i < |Literal(prefix) + tail| && (Literal(prefix) + tail)[i].Field? ==>
      (Literal(prefix) + tail)[i].name in args
    ensures Fill(Literal(prefix) + tail, args) == prefix + Fill(tail, args)
    decreases |prefix|
  {
    LiteralFields(prefix, tail, args);
    if |prefix| > 0 {
      var c := prefix[0];
      var rest := Literal(prefix[1..]) + tail;
      LiteralFilled(prefix[1..], tail, args);
      LiteralFields(prefix[1..], tail, args);
      LiteralCons(prefix, tail);
      assert ([Lit(c)] + rest)[1..] == rest;
      assert Fill([Lit(c)] + rest, args) == [c] + Fill(rest, args);
      assert prefix == [c] + prefix[1..];
    } else {
      assert Literal(prefix) + tail == tail;
    }
  }

  const ResetUrlKey := "password_reset_url"
  const IndexErrorMessage := "list index out of range"
  const FormatErrorMessage := "invalid password reset template"

  /** What `send_mail` ends with: the parent's `send_mail` called once with this context,
      or the error raised before that call. */
  datatype Mail = Delegated(context: map<string, string>) | Raised(error: string)

  /** `send_mail`: when the context carries a reset URL, its third- and second-to-last
      '/'-separated pieces are taken as uid and token and the URL is replaced by the
      frontend URL, a '/', and the confirm template filled with them; a URL with fewer
      than two '/' has too few pieces and raises IndexError. Without a reset URL the
      context goes to the parent untouched. */
  function SendMail(context: map<string, string>, frontendUrl: string, confirmTemplate: string): (m: Mail)
    ensures ResetUrlKey !in context ==> m == Delegated(context)
    ensures ResetUrlKey in context ==> (m == Raised(IndexErrorMessage) <==> Count(context[ResetUrlKey], '/') < 2)
    ensures m.Delegated? ==> m.context.Keys == context.Keys
    ensures m.Delegated? ==> forall k :: k in context && k != ResetUrlKey ==> m.context[k] == context[k]
    ensures ResetUrlKey in context && Count(context[ResetUrlKey], '/') >= 2 ==>
      var pieces := Split(context[ResetUrlKey], '/');
      var path := Format(confirmTemplate, map["uid" := pieces[|pieces| - 3], "token" := pieces[|pieces| - 2]]);
      && (m.Delegated? <==> path.Some?)
      && (m.Delegated? ==> m.context[ResetUrlKey] == frontendUrl + "/" + path.value)
      && (m.Raised? ==> m.error == FormatErrorMessage)
  {
    if ResetUrlKey !in context then Delegated(context)
    else
      var parts := Split(context[ResetUrlKey], '/');
      if |parts| < 3 then Raised(IndexErrorMessage)
      else
        var uid := parts[|parts| - 3];
        var token := parts[|parts| - 2];
        match Format(confirmTemplate, map["uid" := uid, "token" := token])
        case Some(path) => Delegated(context[ResetUrlKey := frontendUrl + "/" + path])
        case None => Raised(FormatErrorMessage)
  }

  /** A reset URL whose last three '/'-separated pieces are `uid`, `token` and a
      '/'-free `last` is rewritten with exactly that uid and token, whatever `last` is. */
  lemma ResetUrlPieces(context: map<string, string>, frontendUrl: string, confirmTemplate: string,
                       head: seq<string>, uid: string, token: string, last: string)
    requires ResetUrlKey in context
    requires context[ResetUrlKey] == JoinWith(head + [uid, token, last], "/")
    requires forall i :: 0 <= i < |head| ==> '/' !in head[i]
    requires '/' !in uid && '/' !in token && '/' !in last
    ensures SendMail(context, frontendUrl, confirmTemplate) ==
      match Format(confirmTemplate, map["uid" := uid, "token" := token])
      case Some(path) => Delegated(context[ResetUrlKey := frontendUrl + "/" + path])
      case None => Raised(FormatErrorMessage)
  {
    var parts := head + [uid, token, last];
    SlashFreeParts(head, uid, token, last);
    JoinThenSplit(parts, '/');
    assert Split(context[ResetUrlKey], '/') == parts;
    assert parts[|parts| - 3] == uid && parts[|parts| - 2] == token;
  }

  lemma SlashFreeParts(head: seq<string>, uid: string, token: string, last: string)
    requires forall i :: 0 <= i < |head| ==> '/' !in head[i]
    requires '/' !in uid && '/' !in token && '/' !in last
    ensures forall i :: 0 <= i < |head + [uid, token, last]| ==> '/' !in (head + [uid, token, last])[i]
  {
    var parts := head + [uid, token, last];
    forall i | 0 <= i < |parts| ensures '/' !in parts[i] {
      if i >= |head| {
        assert parts[i] == [uid, token, last][i - |head|];
      }
    }
  }

  /** The example in the source's comment, `http://domain/reset/MQ/set-password/`, given
      as its '/'-separated segments: the uid is "MQ" and the token "set-password". */
  lemma DocumentedExample(context: map<string, string>, frontendUrl: string, confirmTemplate: string)
    requires ResetUrlKey in context
    requires context[ResetUrlKey] == JoinWith(["http:", "", "domain", "reset", "MQ", "set-password", ""], "/")
    ensures SendMail(context, frontendUrl, confirmTemplate) ==
      match Format(confirmTemplate, map["uid" := "MQ", "token" := "set-password"])
      case Some(path) => Delegated(context[ResetUrlKey := frontendUrl + "/" + path])
      case None => Raised(FormatErrorMessage)
  {
    var head := ["http:", "", "domain", "reset"];
    assert ["http:", "", "domain", "reset", "MQ", "set-password", ""] == head + ["MQ", "set-password", ""];
    assert forall i :: 0 <= i < |head| ==> '/' !in head[i];
    ResetUrlPieces(context, frontendUrl, confirmTemplate, head, "MQ", "set-password", "");
  }

}
