/** src/middleware/validation.js: the request-body validators that run in front of the
    create, comment and edit handlers. A validator either calls `next()`, or writes a
    400 reply and stops the chain, or throws when `.trim()` is called on a truthy value
    that is not a string (Express then hands the error to the global error handler). */
module Validation {
  import opened Js
  import opened HttpResponses

  /** What a validator does with a request. */
  datatype Verdict = Next | Reject(message: string) | Throws(message: string)

  const MsgDescricaoObrigatoria := "Descrição é obrigatória"
  const MsgDescricaoMax := "Descrição deve ter no máximo 1000 caracteres"
  const MsgAutorObrigatorio := "Nome do autor é obrigatório"
  const MsgTextoObrigatorio := "Texto do comentário é obrigatório"
  const MsgComentarioMax := "Comentário deve ter no máximo 500 caracteres"
  const MsgNenhumCampo := "Pelo menos um campo deve ser fornecido para atualização"
  const MsgDescricaoInvalida := "Descrição deve ser um texto válido"
  const MsgAltInvalido := "Texto alternativo deve ser um texto válido"
  const MsgAltMax := "Texto alternativo deve ter no máximo 200 caracteres"
  const MsgAutorInvalido := "Nome do autor deve ser um texto válido"
  const MsgAutorMax := "Nome do autor deve ter no máximo 50 caracteres"

  const MaxDescricao := 1000
  const MaxComentario := 500
  const MaxAlt := 200
  const MaxAutor := 50

  /** The reply of a rejecting validator: `{ error: 'Validation error', message }`, with
      no `success` key (it does not go through `sendError`). */
  function Rejection(message: string): (r: Response)
    ensures r.status == 400 && r.body.Keys == {"error", "message"}
    ensures r.body["error"] == JStr("Validation error") && r.body["message"] == JStr(message)
  {
    ErrorBody(400, "Validation error", JStr(message))
  }

  /** A field that is missing, empty or only whitespace. */
  predicate Blank(v: Json) {
    !Truthy(v) || (v.JStr? && IsBlank(v.s))
  }

  /** A field that is a string with something besides whitespace in it. */
  predicate Filled(v: Json) {
    v.JStr? && !IsBlank(v.s)
  }

  /** `s.trim().length === 0` */
  lemma TrimmedEmpty(s: string)
    ensures Utf16Length(Trim(s)) == 0 <==> IsBlank(s)
  {
  }

  /** `!v || v.trim().length === 0`: `Err` when `.trim` is not a function of `v`. */
  function MissingOrBlank(name: string, v: Json): (r: Result<bool>)
    ensures r.Err? <==> Truthy(v) && !v.JStr?
    ensures r.Ok? ==> (r.value <==> Blank(v))
  {
    if !Truthy(v) then Ok(true)
    else match TrimValue(name, v)
      case Err(m) => Err(m)
      case Ok(t) =>
        TrimmedEmpty(v.s);
        Ok(Utf16Length(t) == 0)
  }

  /** `validarPost`: a description is required, and its untrimmed length is bounded. */
  function ValidarPost(descricao: Json): (r: Verdict)
    ensures r == Next <==> Filled(descricao) && Utf16Length(descricao.s) <= MaxDescricao
    ensures r == Reject(MsgDescricaoObrigatoria) <==> Blank(descricao)
    ensures r == Reject(MsgDescricaoMax) <==> Filled(descricao) && Utf16Length(descricao.s) > MaxDescricao
    ensures r.Throws? <==> Truthy(descricao) && !descricao.JStr?
  {
    match MissingOrBlank("descricao", descricao)
    case Err(m) => Throws(m)
    case Ok(blank) =>
      if blank then Reject(MsgDescricaoObrigatoria)
      else if Utf16Length(descricao.s) > MaxDescricao then Reject(MsgDescricaoMax)
      else Next
  }

  /** `validarComentario`: the author is checked first, then the text, then the text's
      length; the author's length is not bounded. */
  function ValidarComentario(autor: Json, texto: Json): (r: Verdict)
    ensures r == Next <==> Filled(autor) && Filled(texto) && Utf16Length(texto.s) <= MaxComentario
    ensures r == Reject(MsgAutorObrigatorio) <==> Blank(autor)
    ensures r == Reject(MsgTextoObrigatorio) <==> Filled(autor) && Blank(texto)
    ensures r == Reject(MsgComentarioMax) <==> Filled(autor) && Filled(texto) && Utf16Length(texto.s) > MaxComentario
    ensures r.Throws? <==> (Truthy(autor) && !autor.JStr?) || (Filled(autor) && Truthy(texto) && !texto.JStr?)
  {
    match MissingOrBlank("autor", autor)
    case Err(m) => Throws(m)
    case Ok(true) => Reject(MsgAutorObrigatorio)
    case Ok(false) =>
      match MissingOrBlank("texto", texto)
      case Err(m) => Throws(m)
      case Ok(true) => Reject(MsgTextoObrigatorio)
      case Ok(false) =>
        if Utf16Length(texto.s) > MaxComentario then Reject(MsgComentarioMax) else Next
  }

  /** An optional field of an edit is acceptable: absent, or a string (non-blank unless
      `blankOk`) of at most `maxLen` code units. */
  predicate FieldOk(v: Json, blankOk: bool, maxLen: nat) {
    v == JUndefined || (v.JStr? && (blankOk || !IsBlank(v.s)) && Utf16Length(v.s) <= maxLen)
  }

  /** The checks on one optional field of an edit: the message of the first one that
      fails, if any. */
  function CheckField(v: Json, blankOk: bool, maxLen: nat, invalid: string, tooLong: string): (r: Option<string>)
    requires invalid != tooLong
    ensures r.None? <==> FieldOk(v, blankOk, maxLen)
    ensures r == Some(invalid) <==> v != JUndefined && !(v.JStr? && (blankOk || !IsBlank(v.s)))
    ensures r == Some(tooLong) <==> v.JStr? && (blankOk || !IsBlank(v.s)) && Utf16Length(v.s) > maxLen
  {
    if v == JUndefined then None
    else if !v.JStr? then Some(invalid)
    else if !blankOk && (TrimmedEmpty(v.s); Utf16Length(Trim(v.s)) == 0) then Some(invalid)
    else if Utf16Length(v.s) > maxLen then Some(tooLong)
    else None
  }

  /** Some field of the edit is truthy. */
  predicate AnyGiven(descricao: Json, alt: Json, autor: Json) {
    Truthy(descricao) || Truthy(alt) || Truthy(autor)
  }

  /** `validarEdicaoPost`: at least one truthy field, then `descricao`, `alt` and `autor`
      in that order; only the first failing check is reported, and it never throws
      (every `.trim()` is behind a `typeof` test). */
  function ValidarEdicaoPost(descricao: Json, alt: Json, autor: Json): (r: Verdict)
    ensures !r.Throws?
    ensures r == Next <==> AnyGiven(descricao, alt, autor) && FieldOk(descricao, false, MaxDescricao)
                           && FieldOk(alt, true, MaxAlt) && FieldOk(autor, false, MaxAutor)
    ensures r == Reject(MsgNenhumCampo) <==> !AnyGiven(descricao, alt, autor)
    ensures AnyGiven(descricao, alt, autor) && !FieldOk(descricao, false, MaxDescricao) ==>
              r == Reject(if descricao.JStr? && !IsBlank(descricao.s) then MsgDescricaoMax else MsgDescricaoInvalida)
    ensures AnyGiven(descricao, alt, autor) && FieldOk(descricao, false, MaxDescricao) && !FieldOk(alt, true, MaxAlt) ==>
              r == Reject(if alt.JStr? then MsgAltMax else MsgAltInvalido)
    ensures AnyGiven(descricao, alt, autor) && FieldOk(descricao, false, MaxDescricao) && FieldOk(alt, true, MaxAlt)
            && !FieldOk(autor, false, MaxAutor) ==>
              r == Reject(if autor.JStr? && !IsBlank(autor.s) then MsgAutorMax else MsgAutorInvalido)
  {
    if !AnyGiven(descricao, alt, autor) then Reject(MsgNenhumCampo)
    else
      var d := CheckField(descricao, false, MaxDescricao, MsgDescricaoInvalida, MsgDescricaoMax);
      if d.Some? then Reject(d.value)
      else
        var a := CheckField(alt, true, MaxAlt, MsgAltInvalido, MsgAltMax);
        if a.Some? then Reject(a.value)
        else
          var w := CheckField(autor, false, MaxAutor, MsgAutorInvalido, MsgAutorMax);
          if w.Some? then Reject(w.value) else Next
  }

  /** An empty `alt` on its own is not an edit, while a whitespace-only `alt` is one. */
  lemma AltAloneMayBeBlankButNotEmpty()
    ensures ValidarEdicaoPost(JUndefined, JStr(""), JUndefined) == Reject(MsgNenhumCampo)
    ensures ValidarEdicaoPost(JUndefined, JStr(" "), JUndefined) == Next
  {
    assert IsBlank(" ");
    assert Utf16Length(" ") <= 2;
  }

  /** A field set to `null` counts as provided and is rejected as not a text, whereas
      the comment and create validators treat `null` as missing. */
  lemma NullIsProvided(s: string)
    requires Filled(JStr(s)) && Utf16Length(s) <= MaxDescricao
    ensures ValidarEdicaoPost(JStr(s), JUndefined, JNull) == Reject(MsgAutorInvalido)
    ensures ValidarEdicaoPost(JStr(s), JNull, JUndefined) == Reject(MsgAltInvalido)
    ensures ValidarComentario(JNull, JStr(s)) == Reject(MsgAutorObrigatorio)
    ensures ValidarPost(JNull) == Reject(MsgDescricaoObrigatoria)
  {
  }
}
