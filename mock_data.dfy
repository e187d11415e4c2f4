/**
 * The offline replier (src/api/mockData.js): picks a scripted reply by the number
 * of user messages so far and ends the conversation with a sentinel-tagged report.
 */
module MockData {
  import opened JsText
  import ChatApi

  /**
   * `MOCK_RESPONSES`: the scripted replies of the first six rounds, each written as
   * its opening clause followed by the rest of the text.
   */
  const Responses: seq<string> := [
    "你好！" + "很高兴能和你一起开启这段探索之旅。\n\n在开始之前，我想先了解一下你——我们的第一个问题会带你回到16岁之前，那个还没被社会完全\"规训\"的你。\n\n**请回忆一下：在你16岁之前，有哪些事情是没人逼你，你也会废寝忘食去做的？**\n\n或者换一个角度——**有哪些从小到大被批评的\"顽固缺点\"**，比如爱插嘴、太敏感、爱发呆、太固执等？\n\n这些\"缺点\"往往藏着天赋的种子，请诚实地告诉我。",
    "谢谢你的分享，" + "这很有价值。我能感受到你在描述这些时，眼睛里是有光的。\n\n让我追问一下：**当你沉浸在那件事情中时，具体是什么感觉？是时间变快了？是忘记吃饭？还是一种\"这就是我该做的事\"的笃定？**\n\n请具体描述一下当时的状态。",
    "非常好的觉察！" + "\n\n现在让我们来到成年后的你。在工作或生活中，**有没有哪件事让你觉得\"这还需要学吗？这不是显而易见的吗？\"——但周围人却觉得很难？**\n\n这个问题在寻找你的\"无意识胜任区\"——那些你觉得理所当然、但其实是你独特天赋的领域。",
    "很有意思的例子！" + "这说明你在某些方面有着别人不具备的敏锐度。\n\n下一个问题：**有哪件事，做完后虽然身体累，但精神却极度亢奋、充满能量？**\n\n这个问题在做\"能量审计\"——真正的天赋是让你回血的事，而不是你单纯擅长但做完很累的事。",
    "我注意到你反复提到了一些关键词，" + "这很重要。\n\n最后一个问题可能有点冒犯，但它非常关键：**你曾经对谁（或哪种生活状态）产生过强烈的嫉妒或\"酸溜溜\"的感觉？**\n\n嫉妒通常是\"被压抑的天赋\"在发出信号。请诚实面对，这对找到你的真正天赋很有帮助。",
    "感谢你如此坦诚的分享。" + "根据我们的对话，我已经捕捉到了一些重要的信号。\n\n让我再深入一下：**在你描述的这些经历中，你觉得有什么共同的底层模式吗？**比如都涉及到\"帮助他人\"、\"解决复杂问题\"、\"创造新事物\"等？"
  ]

  /** The first line of the final report, a level-one Markdown heading. */
  const ReportHeading: string := "# 个人天赋使用说明书"

  /** The rest of the final report after the blank line that follows its heading. */
  const ReportRest: string := "---\n\n## 写在前面\n\n亲爱的朋友，感谢你愿意花时间与我进行这场深度对话。在过去的几轮交流中，我见证了你对自我的真诚探索，也捕捉到了许多珍贵的信号。现在，请允许我为你呈现这份专属的《天赋说明书》。\n\n## 一、你的核心天赋地图\n\n### 主天赋：[洞察力 × 同理心]\n\n通过我们的对话，我发现你身上有一种非常稀有的组合能力——**深度洞察**与**情感共鸣**的结合。这不是学来的技能，而是你的出厂设置。\n\n### 辅助天赋\n\n1. **模式识别力**：你能在看似混乱的信息中找到规律\n2. **语言转化力**：你善于把复杂的东西用简单的话说清楚\n3. **持久专注力**：一旦进入状态，你可以长时间保持高质量输出\n\n## 二、天赋的使用场景\n\n你的天赋最适合以下场景...\n\n（这是一份 mock 示例报告，实际使用时会根据真实对话生成完整的万字报告）\n\n---\n\n*这是测试模式下的模拟输出。配置真实的 API_KEY 后将获得完整的 AI 分析。*"

  /** `MOCK_FINAL_REPORT`: the sentinel, the heading, a blank line, the rest. */
  const FinalReport: string := "[Report]" + ReportHeading + "\n\n" + ReportRest

  /** `messages.filter(m => m.role === 'user')`. */
  function UserMessages(history: seq<ChatApi.ApiMessage>): (r: seq<ChatApi.ApiMessage>)
    ensures |r| <= |history|
    ensures forall m <- r :: m.role == "user" && m in history
    decreases |history|
  {
    if |history| == 0 then []
    else
      var init := UserMessages(history[..|history| - 1]);
      assert forall m <- init :: m in history by {
        forall m <- init ensures m in history {
          assert m in history[..|history| - 1];
        }
      }
      if history[|history| - 1].role == "user" then init + [history[|history| - 1]] else init
  }

  /** The round index: how many messages of the history the user wrote. */
  function RoundIndex(history: seq<ChatApi.ApiMessage>): (r: nat)
    ensures r <= |history|
  {
    |UserMessages(history)|
  }

  /** One more message raises the round index exactly when the user wrote it. */
  lemma RoundIndexSnoc(history: seq<ChatApi.ApiMessage>, m: ChatApi.ApiMessage)
    ensures RoundIndex(history + [m]) == RoundIndex(history) + (if m.role == "user" then 1 else 0)
  {
    assert (history + [m])[..|history|] == history;
  }

  /** A history without user messages is round zero; one made only of user messages counts them all. */
  lemma {:induction false} RoundIndexBounds(history: seq<ChatApi.ApiMessage>)
    ensures (forall m <- history :: m.role != "user") ==> RoundIndex(history) == 0
    ensures (forall m <- history :: m.role == "user") ==> RoundIndex(history) == |history|
    decreases |history|
  {
    if |history| > 0 {
      var init := history[..|history| - 1];
      assert forall m <- init :: m in history;
      RoundIndexBounds(init);
      assert history == init + [history[|history| - 1]];
      RoundIndexSnoc(init, history[|history| - 1]);
    }
  }

  /** The reply of a round: the scripted one while there is one (the first as fallback), then the report. */
  function MockReply(index: nat): (r: string)
    ensures index >= |Responses| ==> r == FinalReport
    ensures index < |Responses| ==> r == Responses[index]
    ensures r != ""
  {
    if index >= |Responses| then FinalReport
    else if Responses[index] != "" then Responses[index]
    else Responses[0]
  }

  /** Only the final report carries the `[Report]` sentinel. */
  lemma SentinelOnlyInReport(index: nat)
    ensures StartsWith(MockReply(index), "[Report]") <==> index >= |Responses|
  {
    if index < |Responses| {
      var r := MockReply(index);
      assert r == Responses[index];
      assert r[0] != '[' by {
        if index == 0 { assert Responses[0][0] == '你'; }
        else if index == 1 { assert Responses[1][0] == '谢'; }
        else if index == 2 { assert Responses[2][0] == '非'; }
        else if index == 3 { assert Responses[3][0] == '很'; }
        else if index == 4 { assert Responses[4][0] == '我'; }
        else { assert Responses[5][0] == '感'; }
      }
      assert !StartsWith(r, "[Report]") by {
        if |r| >= 8 { assert r[..8][0] == r[0]; }
      }
    } else {
      assert FinalReport[..8] == "[Report]";
    }
  }

  /**
   * `mockSendMessage`: picks the reply of the round and, with a stream callback,
   * types it out prefix by prefix. The 500 ms delay is not modelled.
   */
  method MockSendMessage(history: seq<ChatApi.ApiMessage>, streaming: bool) returns (reply: string, updates: seq<string>)
    ensures reply == MockReply(RoundIndex(history))
    ensures !streaming ==> updates == []
    ensures streaming ==> |updates| == |reply|
    ensures streaming ==> forall i :: 0 <= i < |updates| ==> updates[i] == reply[..i + 1]
  {
    reply := MockReply(RoundIndex(history));
    updates := [];
    if streaming {
      var typed;
      updates, typed := ChatApi.Typewriter(reply);
    }
  }
}
