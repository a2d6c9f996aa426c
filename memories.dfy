/**
 * api/memories.js: the handler the management screen posts new knowledge
 * items to. It rejects every method but POST, requires truthy `agente`,
 * `estado` and `texto`, and saves a record built from the four fields it
 * knows, dropping anything else in the body.
 */
module Memories {
  import opened Wrappers
  import opened Store
  import opened Http
  import JsStrings

  /** The document handed to the Memory model for saving. */
  datatype NewMemory = NewMemory(agente: string, estado: string, texto: string, imagemUrl: Option<string>)

  /** The response, and the record that reached the store, if any. */
  datatype CreateOutcome = CreateOutcome(response: Response, stored: Option<NewMemory>)

  const INCOMPLETE: string := "Dados incompletos."
  const SAVED_MESSAGE: string := "Conteúdo salvo com sucesso!"
  const SAVE_FAILED: string := "Erro interno ao salvar na base de dados."

  /** The record built from a body that passed validation: its four known
      fields and nothing else. */
  function Build(body: Body): NewMemory
    requires "agente" in body && "estado" in body && "texto" in body
  {
    NewMemory(body["agente"], body["estado"], body["texto"], Field(body, "imagemUrl"))
  }

  /** The three required fields are present and not empty. */
  predicate Complete(body: Body) {
    Truthy(Field(body, "agente")) && Truthy(Field(body, "estado")) && Truthy(Field(body, "texto"))
  }

  function Handle(httpMethod: string, body: Body, save: SaveOutcome): CreateOutcome {
    if httpMethod != "POST" then
      CreateOutcome(Response(405, Message(METHOD_NOT_ALLOWED)), None)
    else if !Complete(body) then
      CreateOutcome(Response(400, Message(INCOMPLETE)), None)
    else match save
      case Saved => CreateOutcome(Response(201, Message(SAVED_MESSAGE)), Some(Build(body)))
      case SaveFailed(error) => CreateOutcome(Response(500, ErrorMessage(SAVE_FAILED, error)), None)
  }

  /** The status of the handler, case by case: the method first, then the
      required fields, then the save. */
  lemma HandleStatus(httpMethod: string, body: Body, save: SaveOutcome)
    ensures var status := Handle(httpMethod, body, save).response.status;
      && (status == 405 <==> httpMethod != "POST")
      && (status == 400 <==> httpMethod == "POST" && !Complete(body))
      && (status == 500 <==> httpMethod == "POST" && Complete(body) && save.SaveFailed?)
      && (status == 201 <==> httpMethod == "POST" && Complete(body) && save.Saved?)
  {
  }

  /** A record reaches the store exactly when the answer is 201, and it holds
      the body's four fields, the three required ones non-empty. */
  lemma StoredRecord(httpMethod: string, body: Body, save: SaveOutcome)
    ensures var out := Handle(httpMethod, body, save);
      out.stored.Some? <==> out.response.status == 201
    ensures var out := Handle(httpMethod, body, save);
      out.stored.Some? ==>
        && Some(out.stored.value.agente) == Field(body, "agente")
        && Some(out.stored.value.estado) == Field(body, "estado")
        && Some(out.stored.value.texto) == Field(body, "texto")
        && out.stored.value.imagemUrl == Field(body, "imagemUrl")
        && out.stored.value.agente != "" && out.stored.value.estado != ""
        && out.stored.value.texto != ""
  {
  }

  /** Fields other than the four the handler reads change nothing. */
  lemma OtherFieldsIgnored(httpMethod: string, b1: Body, b2: Body, save: SaveOutcome)
    requires forall k :: k in {"agente", "estado", "texto", "imagemUrl"} ==> Field(b1, k) == Field(b2, k)
    ensures Handle(httpMethod, b1, save) == Handle(httpMethod, b2, save)
  {
    assert Field(b1, "agente") == Field(b2, "agente");
    assert Field(b1, "estado") == Field(b2, "estado");
    assert Field(b1, "texto") == Field(b2, "texto");
    assert Field(b1, "imagemUrl") == Field(b2, "imagemUrl");
  }

  /** `imagemUrl` is never validated: its presence or value never changes
      the status. */
  lemma ImageUrlNotValidated(httpMethod: string, body: Body, url: string, save: SaveOutcome)
    ensures Handle(httpMethod, body["imagemUrl" := url], save).response.status
            == Handle(httpMethod, body - {"imagemUrl"}, save).response.status
  {
    assert Field(body["imagemUrl" := url], "agente") == Field(body - {"imagemUrl"}, "agente");
    assert Field(body["imagemUrl" := url], "estado") == Field(body - {"imagemUrl"}, "estado");
    assert Field(body["imagemUrl" := url], "texto") == Field(body - {"imagemUrl"}, "texto");
  }

  /** Whitespace counts as present: required fields made of whitespace
      alone pass validation, and the answer is the store's. */
  lemma WhitespaceFieldsAccepted(agente: string, estado: string, texto: string, save: SaveOutcome)
    requires agente != "" && estado != "" && texto != ""
    requires JsStrings.AllWhitespace(agente) && JsStrings.AllWhitespace(estado)
    requires JsStrings.AllWhitespace(texto)
    ensures Handle("POST", map["agente" := agente, "estado" := estado, "texto" := texto], save).response.status
            == if save.Saved? then 201 else 500
  {
    var body := map["agente" := agente, "estado" := estado, "texto" := texto];
    assert Field(body, "agente") == Some(agente);
    assert Field(body, "estado") == Some(estado);
    assert Field(body, "texto") == Some(texto);
  }
}
