/** The administrator gate of the `/stats` command: only the configured
    administrator id sees the status snapshot; everybody else gets a fixed
    refusal. */
module Admin {
  import opened Router

  /** What `/stats` answers: the fixed refusal, or the status snapshot (which
      backends are configured, and the administrator id). */
  datatype StatsReply = Refusal(text: string) | Status(groqEnabled: bool, admin: int)

  /** The refusal sent to anyone but the administrator. */
  function RefusalText(): (t: string)
    ensures t != []
  {
    "⛔ هذا الأمر متاح للمسؤول فقط!"
  }

  /** `stats_command`: compare the sender's id with the configured
      administrator id. */
  function StatsCommand(cfg: Config, userId: int): (r: StatsReply)
    ensures r.Refusal? <==> userId != cfg.adminId
    ensures r.Refusal? ==> r.text == RefusalText()
    ensures r.Status? ==> r.groqEnabled == cfg.groqConfigured && r.admin == cfg.adminId
  {
    if userId != cfg.adminId then Refusal(RefusalText())
    else Status(cfg.groqConfigured, cfg.adminId)
  }

  /** A refused caller learns nothing about the configuration: two bots
      that both refuse the caller give the same reply. */
  lemma RefusalLeaksNothing(cfg1: Config, cfg2: Config, userId: int)
    requires userId != cfg1.adminId && userId != cfg2.adminId
    ensures StatsCommand(cfg1, userId) == StatsCommand(cfg2, userId)
  {
  }

  /** Without ADMIN_USER_ID the administrator id is 0, which no real user
      (whose id is positive) has: `/stats` is then refused to everybody. */
  lemma UnsetAdminLocksOut(cfg: Config, userId: int)
    requires cfg.adminId == 0 && userId > 0
    ensures StatsCommand(cfg, userId) == Refusal(RefusalText())
  {
  }
}
