/**
 * The channel-post handler `handle_channel_post` of the bot: a post from the
 * monitored channel is split into lines, the VLESS Reality configurations
 * among them are kept in order, and when there is at least one, a single
 * message (a fixed banner, a blank line, then the configurations separated
 * by blank lines) is addressed to the administrator's chat.
 *
 * The Telegram call itself is not modelled: the handler returns the send
 * request it would make, or None when it makes none.
 */
module ChannelPostHandler {
  import opened Wrappers
  import opened Lines
  import opened RealityFilter

  /** A channel post; `text` is None for a post without text (a photo, a sticker, ...). */
  datatype Post = Post(text: Option<string>)

  /** The one call the handler makes: `send_message(chat_id, text)`. */
  datatype SendRequest = SendRequest(chatId: string, text: string)

  /** The announcement put in front of the configurations
      ("new Reality configurations found:"). */
  const Banner: string := "✅ کانفیگ‌های Reality جدید پیدا شد:"

  /** What stands between the banner and the first configuration, and
      between neighbouring configurations: one blank line. */
  const Separator: string := "\n\n"

  /** The handler only reads a post that is present and has non-empty text
      (Python's truthiness of `message` and `message.text`). */
  function PostText(post: Option<Post>): (text: Option<string>)
    ensures text.Some? <==> post.Some? && post.value.text.Some? && post.value.text.value != ""
    ensures text.Some? ==> text.value == post.value.text.value
  {
    if post.Some? && post.value.text.Some? && post.value.text.value != "" then post.value.text
    else None
  }

  /** The configurations the handler would forward for a post. */
  function Kept(post: Option<Post>): seq<string> {
    match PostText(post)
    case None => []
    case Some(text) => Matches(SplitLines(text))
  }

  /** The text of the outgoing message for a non-empty list of configurations. */
  function MessageText(configs: seq<string>): string {
    Banner + Separator + Join(Separator, configs)
  }

  /** The send request the handler makes for a post, if any. */
  function Outgoing(post: Option<Post>, adminChatId: string): Option<SendRequest> {
    var kept := Kept(post);
    if kept == [] then None else Some(SendRequest(adminChatId, MessageText(kept)))
  }

  /** `handle_channel_post`: the guard, `splitlines`, the filter loop and
      the join, with the send left to the caller. */
  method HandleChannelPost(post: Option<Post>, adminChatId: string) returns (request: Option<SendRequest>)
    ensures request == Outgoing(post, adminChatId)
  {
    request := None;
    var text := PostText(post);
    if text.Some? {
      var postText := text.value;
      var configs := SplitLines(postText);
      var realityConfigs := CollectRealityConfigs(configs);
      if realityConfigs != [] {
        var fullMessage := Join(Separator, realityConfigs);
        request := Some(SendRequest(adminChatId, Banner + Separator + fullMessage));
      }
    }
  }

  /** The banner is one line, and it is not itself a configuration. */
  lemma {:induction false} BannerIsPlainLine()
    ensures Banner != [] && NoLineBoundary(Banner) && !IsRealityConfig(Banner)
  {
    assert NoLineBoundary(Banner) by {
      BannerCharacters();
    }
    assert !IsRealityConfig(Banner) by {
      BannerCharacters();
      NoLowerVNotReality(Banner);
    }
  }

  /** The banner has no lower-case "v" and no character in the ranges of
      the line boundaries. */
  lemma {:induction false} BannerCharacters()
    ensures forall k :: 0 <= k < |Banner| ==> Banner[k] != 'v'
    ensures forall k :: 0 <= k < |Banner| ==> Banner[k] == ' ' || Banner[k] > '\U{2029}' || '0' <= Banner[k] < '\U{2028}'
  {
  }

  /** No message is sent exactly when the post is absent, has no text, or
      has no line containing both "vless://" and "security=reality". */
  lemma {:induction false} NoMatchNoSend(post: Option<Post>, adminChatId: string)
    ensures Outgoing(post, adminChatId) == None <==>
      || PostText(post) == None
      || forall line :: line in SplitLines(PostText(post).value) ==> !IsRealityConfig(line)
  {
    if PostText(post).Some? {
      var lines := SplitLines(PostText(post).value);
      MatchesEmptyIff(lines);
      if Matches(lines) != [] {
        var j :| 0 <= j < |lines| && IsRealityConfig(lines[j]);
        assert lines[j] in lines;
      }
    }
  }

  /** A post without text, or with empty text, never produces a message. */
  lemma {:induction false} EmptyTextNoSend(adminChatId: string)
    ensures Outgoing(None, adminChatId) == None
    ensures Outgoing(Some(Post(None)), adminChatId) == None
    ensures Outgoing(Some(Post(Some(""))), adminChatId) == None
  {
  }

  /** Splitting the outgoing text line by line gives the banner, a blank
      line, and the kept configurations with a blank line between each two:
      no entry between separators is empty. */
  lemma {:induction false} MessageLines(post: Option<Post>, adminChatId: string)
    requires Outgoing(post, adminChatId).Some?
    ensures Outgoing(post, adminChatId).value.chatId == adminChatId
    ensures SplitLines(Outgoing(post, adminChatId).value.text) == [Banner, ""] + Spaced(Kept(post))
  {
    var kept := Kept(post);
    var lines := SplitLines(PostText(post).value);
    forall k | 0 <= k < |kept| ensures kept[k] != [] && NoLineBoundary(kept[k]) {
      MatchesSubsequence(lines);
      RealityConfigNonEmpty(kept[k]);
    }
    BannerIsPlainLine();
    SplitHeadedBlankLineJoin(Banner, kept);
  }

  /** The recipient loses nothing and gains nothing: filtering the lines of
      the outgoing message again yields exactly the configurations of the
      post, in their original order. */
  lemma {:induction false} ForwardedConfigsRoundTrip(post: Option<Post>, adminChatId: string)
    requires Outgoing(post, adminChatId).Some?
    ensures Matches(SplitLines(Outgoing(post, adminChatId).value.text)) == Kept(post)
  {
    MessageLines(post, adminChatId);
    BannerIsPlainLine();
    MatchesAppend([Banner, ""], Spaced(Kept(post)));
    assert Matches([Banner, ""]) == [];
    MatchesOfSpaced(Kept(post));
  }

  /** Blank separator lines are never kept. */
  lemma {:induction false} MatchesOfSpaced(parts: seq<string>)
    requires forall k :: 0 <= k < |parts| ==> IsRealityConfig(parts[k])
    ensures Matches(Spaced(parts)) == parts
    decreases |parts|
  {
    if |parts| <= 1 {
      MatchesOfPassing(parts);
    } else {
      MatchesOfSpaced(parts[1..]);
      MatchesAppend([parts[0], ""], Spaced(parts[1..]));
      assert Matches([parts[0], ""]) == [parts[0]];
      assert parts == [parts[0]] + parts[1..];
    }
  }

  /** A post with exactly one configuration forwards that line unchanged
      after the banner and the blank line. */
  lemma {:induction false} SingleMatchUnchanged(post: Option<Post>, adminChatId: string, config: string)
    requires Kept(post) == [config]
    ensures Outgoing(post, adminChatId) == Some(SendRequest(adminChatId, Banner + "\n\n" + config))
  {
  }

  /** One configuration between two failing lines is forwarded alone,
      unchanged, after the banner. */
  lemma {:induction false} OneConfigBetween(a: string, b: string, c: string, adminChatId: string)
    requires NoLineBoundary(a) && NoLineBoundary(b) && NoLineBoundary(c) && c != []
    requires !IsRealityConfig(a) && IsRealityConfig(b) && !IsRealityConfig(c)
    ensures Outgoing(Some(Post(Some(a + "\n" + b + "\n" + c))), adminChatId)
         == Some(SendRequest(adminChatId, Banner + "\n\n" + b))
  {
    SplitThreeLines(a, b, c);
    MatchesMiddleOnly(a, b, c);
  }

  /** A post "hello", a configuration, "world" forwards just that
      configuration after the banner. */
  lemma {:induction false} OneConfigAmongChatter(hello: string, config: string, world: string, adminChatId: string)
    requires hello == "hello" && config == "vless://abc?security=reality" && world == "world"
    ensures Outgoing(Some(Post(Some(hello + "\n" + config + "\n" + world))), adminChatId)
         == Some(SendRequest(adminChatId, Banner + "\n\n" + config))
  {
    assert NoLineBoundary(hello) && NoLineBoundary(config) && NoLineBoundary(world) by {
      PrintableIsLine(hello);
      PrintableIsLine(config);
      PrintableIsLine(world);
    }
    assert IsRealityConfig(config) by {
      assert config[..8] == VlessScheme && config[12..28] == RealitySecurity;
      FoundBothPasses(config, 0, 12);
    }
    assert !IsRealityConfig(hello) && !IsRealityConfig(world) by {
      NoLowerVNotReality(hello);
      NoLowerVNotReality(world);
    }
    OneConfigBetween(hello, config, world, adminChatId);
  }

  /** A failing line followed by two configurations: the two are
      forwarded in their order, with a blank line between them. */
  lemma {:induction false} TwoConfigsInOrder(a: string, b: string, c: string, adminChatId: string)
    requires NoLineBoundary(a) && NoLineBoundary(b) && NoLineBoundary(c) && c != []
    requires !IsRealityConfig(a) && IsRealityConfig(b) && IsRealityConfig(c)
    ensures Outgoing(Some(Post(Some(a + "\n" + b + "\n" + c))), adminChatId)
         == Some(SendRequest(adminChatId, Banner + "\n\n" + (b + "\n\n" + c)))
  {
    SplitThreeLines(a, b, c);
    MatchesLastTwo(a, b, c);
    assert Join(Separator, [b, c]) == b + "\n\n" + c by {
      assert [b, c][1..] == [c];
    }
  }

  /** The scheme is compared case-sensitively: "VLESS://" is not "vless://". */
  lemma {:induction false} UpperCaseSchemeNotKept(line: string)
    requires line == "VLESS://abc?security=reality"
    ensures !IsRealityConfig(line)
  {
    assert forall k :: 0 <= k < |line| ==> line[k] != 'v';
    NoLowerVNotReality(line);
  }
}
