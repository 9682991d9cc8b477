# Reality-configuration relay: a verified model of the channel-post filter

The bot watches one Telegram channel. For every post with text it splits the
text into lines, keeps each line that contains both `vless://` and
`security=reality` (a VLESS configuration using the Reality transport
security), and, if it kept at least one, sends the administrator a single
message: a fixed banner, a blank line, then the kept lines with a blank line
between each two. Posts without a match send nothing.

This project models that pipeline (`handle_channel_post` in `Bot.py`) in
Dafny and proves its properties:

- `wrappers.dfy` — `Option`.
- `lines.dfy` (module `Lines`) — Python's `str.splitlines` and `str.join`, as
  functions, with the laws that tie them together.
- `reality_filter.dfy` (module `RealityFilter`) — the substring test
  (Python's `in`), the pure filter `Matches`, and the loop of the handler,
  `CollectRealityConfigs`, proved equal to it.
- `handler.dfy` (module `ChannelPostHandler`) — the post guard, the banner,
  the outgoing message, and `HandleChannelPost`, which returns the send
  request it would make (`None` when it sends nothing).

Line boundaries are the full set `str.splitlines` uses: `\n`, `\r`, `\r\n`
(one boundary), `\v`, `\f`, `\x1c`, `\x1d`, `\x1e`, `\x85`, U+2028 and U+2029.
The empty text has no lines, and a final boundary opens no further line.

Lines are not trimmed: each candidate line is the text between two
boundaries exactly as it appears, as `splitlines` does.

The recipient chat id (`ADMIN_CHAT_ID`, read from the environment) is a
parameter of the handler.

## Model

| member | source | states |
|---|---|---|
| Lines.IsLineBoundary | Bot.py:40 | the boundary set of `splitlines`; what it means for splitting is stated by SplitLinesAfterBreak and SplitLinesKeepsText |
| Lines.LineEnd | Bot.py:40 | the position of the first line boundary: everything before it is boundary-free, and the character there is a boundary (or the text has ended) |
| Lines.SplitLines | Bot.py:40 | no line holds a line boundary; there are no lines exactly when the text is empty |
| Lines.SplitLinesAfterBreak | Bot.py:40 | a boundary-free line, a line break and a rest split into that line followed by the lines of the rest (`\r\n` is one break) |
| Lines.SplitLinesSingle | Bot.py:40 | a non-empty text without boundaries is one line, unchanged |
| Lines.TrailingNewlineAddsNoLine | Bot.py:40 | a trailing `\n` after a text not already ending in a boundary adds no empty line |
| Lines.SplitLinesKeepsText | Bot.py:40 | the lines laid end to end are the text with exactly its boundary characters removed: nothing else is lost or reordered |
| Lines.SplitThreeLines | Bot.py:40 | three boundary-free lines joined by `\n` split into those three lines |
| Lines.JoinLinesRoundTrip | Bot.py:40 | splitting undoes joining with `\n`, for boundary-free lines whose last one is non-empty |
| Lines.Join | Bot.py:51 | `sep.join(parts)`; its meaning for the message is stated by JoinBlankLineIsSpaced and SplitBlankLineJoin: splitting a `"\n\n"`-join gives the parts back with a blank line between each two |
| Lines.JoinBlankLineIsSpaced | Bot.py:51 | joining with `"\n\n"` is joining with `\n` after an empty line is put between neighbours |
| Lines.SplitBlankLineJoin | Bot.py:51 | splitting a `"\n\n"`-join of non-empty lines gives the lines back with one empty line between each two |
| Lines.SplitHeadedBlankLineJoin | Bot.py:51-55 | a heading, a blank line and a `"\n\n"`-join split into the heading, an empty line and the spaced parts |
| RealityFilter.Contains | Bot.py:44 | Python `sub in s`; ContainsIff states that it holds exactly when `sub` occurs at some position of `s` |
| RealityFilter.ContainsIff | Bot.py:44 | the substring search holds exactly when the needle occurs at some position |
| RealityFilter.ContainsLength | Bot.py:44 | a text containing a needle is at least as long as it |
| RealityFilter.ContainsNeedsFirstChar | Bot.py:44 | a text lacking the needle's first character does not contain it |
| RealityFilter.IsRealityConfig | Bot.py:44 | the test of the handler; RealityConfigIff states that it holds exactly when both literals occur, at unrelated positions |
| RealityFilter.RealityConfigIff | Bot.py:44 | a line passes exactly when `vless://` occurs somewhere and `security=reality` occurs somewhere, in either order |
| RealityFilter.RealityConfigNonEmpty | Bot.py:44 | a passing line is at least 16 characters long, so never empty |
| RealityFilter.NoLowerVNotReality | Bot.py:44 | a line without a lower-case `v` never passes (the comparison is case-sensitive) |
| RealityFilter.FoundBothPasses | Bot.py:44 | a line where both literals were found at some positions passes |
| RealityFilter.Matches | Bot.py:41-45 | the kept lines are no more than the input lines, and every one passes the test |
| RealityFilter.MatchesSubsequence | Bot.py:41-45 | the kept lines are the input lines at strictly increasing positions, and a position is among them exactly when its line passes |
| RealityFilter.MatchesCount | Bot.py:41-45 | as many lines are kept as there are input positions whose line passes |
| RealityFilter.MatchesEmptyIff | Bot.py:41-48 | nothing is kept exactly when no line passes |
| RealityFilter.MatchesAppend | Bot.py:42-45 | filtering a concatenation is concatenating the filtered parts |
| RealityFilter.MatchesOfPassing | Bot.py:42-45 | lines that all pass are all kept unchanged, so filtering is idempotent |
| RealityFilter.MatchesMiddleOnly | Bot.py:42-45 | of three lines where only the middle one passes, only it is kept |
| RealityFilter.MatchesLastTwo | Bot.py:42-45 | of three lines where the last two pass, those two are kept in order |
| RealityFilter.CollectRealityConfigs | Bot.py:41-45 | the loop that appends each passing line yields exactly the pure filter of the lines |
| ChannelPostHandler.Kept | Bot.py:34-45 | the configurations forwarded for a post; NoMatchNoSend states when it is empty and ForwardedConfigsRoundTrip that the sent message carries exactly these, in order |
| ChannelPostHandler.MessageText | Bot.py:51-55 | the outgoing text; MessageLines states that its lines are the banner, an empty line and the configurations with one empty line between each two |
| ChannelPostHandler.Outgoing | Bot.py:48-56 | the send request for a post; NoMatchNoSend states when there is none, MessageLines its recipient and lines |
| ChannelPostHandler.HandleChannelPost | Bot.py:28-60 | the handler's send request is exactly the specified outgoing request for the post and recipient |
| ChannelPostHandler.BannerIsPlainLine | Bot.py:55 | the banner constant `Banner` (the wording of the source) is one non-empty line and is not itself a configuration |
| ChannelPostHandler.NoMatchNoSend | Bot.py:34-60 | no message is sent exactly when the post has no usable text or none of its lines passes; otherwise one is |
| ChannelPostHandler.EmptyTextNoSend | Bot.py:34 | an absent post, a post without text and a post with empty text send nothing |
| ChannelPostHandler.MessageLines | Bot.py:51-56 | the message goes to the administrator, and its lines are the banner, an empty line and the kept configurations with one empty line between each two |
| ChannelPostHandler.ForwardedConfigsRoundTrip | Bot.py:40-56 | filtering the lines of the sent message again yields exactly the post's configurations in their order |
| ChannelPostHandler.MatchesOfSpaced | Bot.py:44-51 | the blank separator lines between passing lines are never kept |
| ChannelPostHandler.SingleMatchUnchanged | Bot.py:51-55 | a single configuration appears unchanged after the banner and blank line |
| ChannelPostHandler.OneConfigBetween | Bot.py:40-55 | one configuration between two failing lines sends the banner, a blank line and that configuration unchanged |
| ChannelPostHandler.OneConfigAmongChatter | Bot.py:40-55 | the post `hello` / `vless://abc?security=reality` / `world` sends the banner, a blank line and that one configuration |
| ChannelPostHandler.TwoConfigsInOrder | Bot.py:40-55 | a failing line followed by two configurations sends the two in order with a blank line between |
| ChannelPostHandler.UpperCaseSchemeNotKept | Bot.py:44 | `VLESS://abc?security=reality` is not kept |

## Left out

- The Telegram transport (`Application`, `run_polling`, handler registration, Bot.py:69-84): a third-party library; the handler is modelled as a function of one post.
- The source-channel filter `filters.Chat(username=...)` (Bot.py:77-80): it runs inside the transport before the handler; the model assumes every post it receives comes from the monitored channel.
- `send_message` and its `try`/`except` (Bot.py:52-58): an asynchronous network call; the model returns the request it would make and does not model delivery or its failure.
- Logging (Bot.py:7-10, 36, 49, 58, 60): no effect on behaviour.
- Environment variables and the startup check in `main` (Bot.py:14-16, 63-67): process configuration; the recipient chat id is a parameter.
- The `/start` command reply (Bot.py:18-26): fixed presentation text built from I/O objects.
- The banner's wording is a constant; only its shape (one line, not a configuration) is reasoned about.
- Text is a sequence of Unicode scalar values (Dafny `char`); a Python `str` may also hold lone surrogate code points, which the model cannot represent.
