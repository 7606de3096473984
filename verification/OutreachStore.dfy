/** The handlers and the worker tick as they update the tables in place, each proved to do
    what the corresponding function of module Outreach says. */
module OutreachStore {
  import opened Text
  import opened Cadence
  import opened Outreach
  import Templates

  class Store {
    var now: int
    var campaigns: map<CampaignId, Campaign>
    var contacts: map<ContactId, map<string, string>>
    var tracks: map<RowKey, Track>
    var order: seq<RowKey>
    var messages: seq<Message>

    function Tables(): Db
      reads this
    {
      Db(now, campaigns, contacts, tracks, order, messages)
    }

    constructor (now: int, campaigns: map<CampaignId, Campaign>, contacts: map<ContactId, map<string, string>>)
      ensures Tables() == Db(now, campaigns, contacts, map[], [], [])
    {
      this.now, this.campaigns, this.contacts := now, campaigns, contacts;
      tracks, order, messages := map[], [], [];
    }

    method StageCampaignContacts(c: CampaignId, ids: seq<ContactId>)
      modifies this
      ensures Tables() == Stage(old(Tables()), c, ids)
    {
      hide StageOne;
      if c !in campaigns || exists id :: id in ids && id !in contacts {
        return;
      }
      var k := 0;
      while k < |ids|
        invariant 0 <= k <= |ids|
        invariant StageAll(Tables(), c, ids[k..]) == StageAll(old(Tables()), c, ids)
      {
        assert ids[k..][1..] == ids[k + 1..];
        StageContact(c, ids[k]);
        k := k + 1;
      }
    }

    method StageContact(c: CampaignId, id: ContactId)
      modifies this`tracks, this`order
      ensures Tables() == StageOne(old(Tables()), c, id)
    {
      var k := RowKey(c, id);
      if k !in tracks {
        tracks := tracks[k := NewTrack()];
        order := order + [k];
      }
    }

    method SetCampaignRunning(c: CampaignId, running: bool) returns (found: bool)
      modifies this`campaigns
      ensures found == (c in old(campaigns))
      ensures Tables() == SetRunning(old(Tables()), c, running)
    {
      found := c in campaigns;
      if found {
        campaigns := campaigns[c := campaigns[c].(running := running, updatedAt := now)];
      }
    }

    /** Starting a campaign stages the organisation's whole contact base; `base` is the select's
        answer, in the order it returns it. */
    method StartCampaign(c: CampaignId, base: seq<ContactId>) returns (found: bool)
      requires forall id :: id in base <==> id in contacts
      modifies this
      ensures found == (c in old(campaigns))
      ensures Tables() == Stage(SetRunning(old(Tables()), c, true), c, base)
    {
      hide StageAll;
      found := SetCampaignRunning(c, true);
      if found {
        StageCampaignContacts(c, base);
      }
    }

    /** The MESSAGE step at the candidate's position if it can be delivered now; otherwise the
        candidate is completed, moved past a step that is not a message, or left alone. */
    method CurrentMessageStep(k: RowKey) returns (step: Option<Step>)
      requires k in tracks
      modifies this`tracks
      ensures step.None? ==>
        !TickOf(old(Tables()), k).enqueued
        && Tables() == old(Tables()).(tracks := old(tracks)[k := TickOf(old(Tables()), k).track])
      ensures var t := old(tracks[k]); step.Some? ==>
        Tables() == old(Tables()) && 1 <= t.row.position <= |StepsOf(old(Tables()), k)|
        && step.value == StepsOf(old(Tables()), k)[t.row.position - 1] && step.value.message && !Reserved(t)
    {
      hide Templates.RenderedWith;
      var t, steps := tracks[k], StepsOf(Tables(), k);
      var p := t.row.position;
      if p < 1 || p > |steps| {
        if p > 1 {
          tracks := tracks[k := t.(row := t.row.(status := Completed))];
        } else {
          assert tracks[k := t] == tracks;
        }
        return None;
      }
      if steps[p - 1].message {
        if p in t.jobs && t.jobs[p].status != Failed {
          assert tracks[k := t] == tracks;
          return None;
        }
        return Some(steps[p - 1]);
      }
      tracks := tracks[k := t.(row := t.row.(position := p + 1, nextAt := Some(now + steps[p - 1].delay)))];
      return None;
    }

    /** Renders the step for the candidate; a missing variable stops it, otherwise its job is
        inserted unless one exists, and the row is marked waiting. */
    method Enqueue(k: RowKey, step: Step) returns (enqueued: bool)
      requires k in tracks
      requires 1 <= tracks[k].row.position <= |StepsOf(Tables(), k)|
      requires step == StepsOf(Tables(), k)[tracks[k].row.position - 1] && step.message && !Reserved(tracks[k])
      modifies this`tracks
      ensures Tables() == old(Tables()).(tracks := old(tracks)[k := TickOf(old(Tables()), k).track])
      ensures enqueued == TickOf(old(Tables()), k).enqueued
    {
      hide Templates.RenderedWith;
      var t := tracks[k];
      var p := t.row.position;
      var r := Templates.RenderWith(step.template, ValuesOf(Tables(), k));
      if r.needsReview {
        tracks := tracks[k := t.(row := t.row.(status := Stopped, reason := MissingVariables))];
        return false;
      }
      var jobs := if p in t.jobs then t.jobs else t.jobs[p := Job(Queued, 0, r.text, now, None)];
      tracks := tracks[k := Track(t.row.(status := Waiting), jobs)];
      return true;
    }

    method ProcessNextOutreachStep(c: CampaignId, gates: bool)
      modifies this
      ensures Tables() == Tick(old(Tables()), c, gates)
    {
      hide Candidates, TickTrack, TickOf, StepsOf, Reserved, IsLatestRunning;
      if !gates || !IsLatestRunning(Tables(), c) {
        return;
      }
      var keys := Candidates(Tables(), c);
      var i := 0;
      while i < |keys|
        invariant 0 <= i <= |keys|
        invariant tracks.Keys == old(tracks.Keys)
        invariant forall k :: k in keys ==> k in tracks
        invariant TickRows(Tables(), keys[i..]) == TickRows(old(Tables()), keys)
      {
        var k := keys[i];
        assert keys[i..][1..] == keys[i + 1..];
        var step := CurrentMessageStep(k);
        if step.Some? {
          var enqueued := Enqueue(k, step.value);
          if enqueued { return; }
        }
        i := i + 1;
      }
    }

    method HandleJobSent(k: RowKey, p: nat, body: string) returns (found: bool)
      modifies this
      ensures found == (k in old(tracks) && p in old(tracks[k]).jobs)
      ensures Tables() == ReportSent(old(Tables()), k, p, body)
    {
      found := k in tracks && p in tracks[k].jobs;
      if !found { return; }
      var t := tracks[k];
      var job := t.jobs[p];
      if job.status == Sent { return; }
      var content := if body != "" then body else job.content;
      messages := messages + [Message(k.contact, Outbound, content)];
      var row := Advance(StepsOf(Tables(), k), now, t.row);
      tracks := tracks[k := Track(row, t.jobs[p := job.(status := Sent, executedAt := Some(now))])];
    }

    method HandleJobFailed(k: RowKey, p: nat) returns (found: bool)
      modifies this`tracks
      ensures found == (k in old(tracks) && p in old(tracks[k]).jobs)
      ensures Tables() == ReportFailure(old(Tables()), k, p)
    {
      found := k in tracks && p in tracks[k].jobs;
      if !found { return; }
      var t := tracks[k];
      var attempts := t.jobs[p].attempts + 1;
      if attempts >= 3 {
        var jobs := t.jobs[p := t.jobs[p].(status := Failed, attempts := attempts)];
        tracks := tracks[k := Track(t.row.(status := Stopped, reason := DeliveryFailed), jobs)];
      } else if t.jobs[p].status == Queued {
        tracks := tracks[k := t.(jobs := t.jobs[p := t.jobs[p].(attempts := attempts)])];
      } else {
        assert tracks[k := t] == tracks;
      }
    }

    method HandleReportReply(contact: ContactId, body: string) returns (recorded: bool)
      modifies this
      ensures recorded == (!Blank(body) && contact in old(contacts))
      ensures Tables() == Reply(old(Tables()), contact, body)
    {
      recorded := !Blank(body) && contact in contacts;
      if recorded {
        tracks := map k | k in tracks ::
          if k.contact == contact && Live(tracks[k].row)
          then tracks[k].(row := tracks[k].row.(status := Stopped, reason := StopOnReply))
          else tracks[k];
        messages := messages + [Message(contact, Inbound, body)];
      }
    }
  }
}
