/** The opening assistant message of each mode (src/constants/welcome-message.js). */
module WelcomeMessage {
  import Modes

  const DiscoverSelfWelcome: string := "你好！我是 Dora。\n很高兴看到你选择暂时放下外界，回过头来审视最真实的自己。\n很多时候我们感到疲惫，是因为看不清潜意识里的“出厂设置”。\n接下来的 10 轮对话，我会帮你从繁杂的情绪中精准提炼出你的核心性格底色。\n对话结束时，你将获得一份独一无二的 Inner Book 报告——\n它会帮你看清你从未觉察的优势与心理边界。\n这不仅仅是一次对话，更是你重新掌控人生、停止内耗的开始。\n"

  const UnderstandOthersWelcome: string := "你好！我是 Dora，很高兴能在这里遇见你。\n在一段关系里，最昂贵的代价就是“我以为我懂他”。\n接下来的 10 轮逻辑拆解，是为了帮你穿透对方的言语伪装，直达他的核心动机。\n对话结束，我会为你生成一份关于他的 Inner Book 深度画像——\n帮你预判他的行为逻辑，看清你们之间的博弈点，甚至掌握维系或止损的主动权。\n别再凭直觉猜测了，让我们用理性的视角，看清那个人隐藏最深的灵魂底色。\n"

  /** `getWelcomeMessage`: a switch on the mode with the discover-self message as default. */
  function GetWelcomeMessage(mode: string): (r: string)
    ensures r == UnderstandOthersWelcome <==> mode == Modes.UnderstandOthers
    ensures r == DiscoverSelfWelcome <==> mode != Modes.UnderstandOthers
    ensures r in {DiscoverSelfWelcome, UnderstandOthersWelcome}
  {
    if mode == Modes.UnderstandOthers then UnderstandOthersWelcome
    else if mode == Modes.DiscoverSelf then DiscoverSelfWelcome
    else DiscoverSelfWelcome
  }
}
