/** What a line of the stream delivers, and what the text gathered from it is. */
module StreamEvents {
  import opened Wrappers
  import opened Text
  import opened Stream

  /** An event's token: its first field that is set, a finished event's content not counting. */
  lemma TokenOf(done: bool, content: Option<string>, delta: Option<string>, text: Option<string>, token: Option<string>)
    ensures
      ExtractToken(Object(done, content, delta, text, token))
      == if !done && content.Some? then content.value
         else if delta.Some? then delta.value
         else if text.Some? then text.value
         else if token.Some? then token.value
         else ""
    ensures ExtractToken(NotObject) == ""
  {
    FirstOr(token, []);
    FirstOr(text, [token]);
    FirstOr(delta, [text, token]);
    FirstOr(content, [delta, text, token]);
    assert [token] + [] == [token] && [text] + [token] == [text, token];
    assert [delta] + [text, token] == [delta, text, token];
    assert [content] + [delta, text, token] == [content, delta, text, token];
    hide FirstSome;
  }

  lemma FirstOr(v: Option<string>, rest: seq<Option<string>>)
    ensures FirstSome([v] + rest) == if v.Some? then v.value else FirstSome(rest)
    ensures FirstSome([]) == ""
  {
    assert ([v] + rest)[1..] == rest;
  }

  /** A line delivers one event, with its token unless that is blank, iff stripped it is "data: " and a JSON text other
      than the end mark; anything else delivers nothing. */
  lemma LineDelivers(json: string -> Option<Event>, line: string)
    ensures
      var s := Strip(line);
      var isData := |s| >= 6 && s[..6] == "data: " && s[6..] != "[DONE]" && json(s[6..]).Some?;
      ParseLine(json, line)
      == if !isData then []
         else
           var e := json(s[6..]).value;
           [Delivery(if Blank(ExtractToken(e)) then None else Some(ExtractToken(e)), e)]
  {
    var s := Strip(line);
    hide Strip, ExtractToken;
    if |s| >= 6 && s[..6] == "data: " {
      assert s[0] == s[..6][0] == 'd' && !IsSpace('d');
    }
  }

  /** The text gathered is the tokens delivered, one after the other. */
  lemma TextGathered(ds: seq<Delivery>, d: Delivery)
    ensures FullText([]) == "" && FullText(ds + [d]) == FullText(ds) + (match d.token case Some(t) => t case None => "")
  {
    assert (ds + [d])[..|ds|] == ds;
  }
}
